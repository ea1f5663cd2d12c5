/** The reconciler: it brings a device's filters to a desired list by deleting and adding single filters. */
module Actuators {
  import opened Collections
  import opened Net
  import opened TcTypes
  import opened FilterSets
  import opened Drivers
  import opened Devices

  // ----- what is asked of the desired filters -----

  /** No two different desired filters exclude one another in the kernel, in the form that the driver sends them in. */
  predicate ConflictFree(d: Driver, fs: seq<Filter>) {
    forall i, j :: 0 <= i < |fs| && 0 <= j < |fs| && Clash(Sent(d, fs[i]), Sent(d, fs[j])) ==>
      Canon(fs[i]) == Canon(fs[j])
  }

  predicate AllAccepted(d: Driver, fs: seq<Filter>) {
    forall i :: 0 <= i < |fs| ==> Accepted(d, fs[i])
  }

  predicate AllFaithful(d: Driver, fs: seq<Filter>) {
    forall i :: 0 <= i < |fs| ==> Faithful(d, fs[i])
  }

  /** Desired filters of known names that name their preference. */
  predicate AllPlaced(fs: seq<Filter>) {
    forall i :: 0 <= i < |fs| ==> Given(fs[i].attrs.priority) && Named(fs[i])
  }

  /** Desired filters that the kernel takes, that leave the handle to it and that can stand side by side. */
  predicate Installable(d: Driver, fs: seq<Filter>) {
    AllPlaced(fs) && AllAccepted(d, fs) && ConflictFree(d, fs) && forall i :: 0 <= i < |fs| ==> fs[i].attrs.handle.None?
  }

  // ----- the states on the way -----

  function Kept(was: set<Filter>, fs: seq<Filter>): set<Filter> {
    was * Keys(fs)
  }

  /** While filters are deleted: some of the old ones, and all those that stay. */
  ghost predicate Removing(state: seq<Filter>, was: set<Filter>, fs: seq<Filter>) {
    Kept(was, fs) <= Keys(state) <= was
  }

  /** While filters are added: those that stay and an initial part of the desired list, as the kernel sees them. */
  ghost predicate Adding(d: Driver, state: seq<Filter>, was: set<Filter>, fs: seq<Filter>) {
    exists n :: 0 <= n <= |fs| && WireKeys(state) == WireOf(Kept(was, fs)) + SentKeys(d, fs[..n])
  }

  ghost predicate Transitional(d: Driver, state: seq<Filter>, was: set<Filter>, fs: seq<Filter>) {
    Removing(state, was, fs) || Adding(d, state, was, fs)
  }

  ghost predicate AllTransitional(d: Driver, states: seq<seq<Filter>>, from: nat, was: set<Filter>, fs: seq<Filter>) {
    forall k :: from <= k < |states| ==> Transitional(d, states[k], was, fs)
  }

  /** One of the states holds just what is old and desired. */
  ghost predicate PassesKept(states: seq<seq<Filter>>, from: nat, was: set<Filter>, fs: seq<Filter>) {
    exists k :: from <= k < |states| && Keys(states[k]) == Kept(was, fs)
  }

  /** In every state on the way the filters lie between those that stay and the union of old and new. */
  lemma TransitionalBounds(d: Driver, state: seq<Filter>, was: set<Filter>, fs: seq<Filter>)
    requires Transitional(d, state, was, fs)
    ensures WireOf(Kept(was, fs)) <= WireKeys(state) <= WireOf(was) + SentKeys(d, fs)
  {
    WireOfKeys(state);
    forall n | 0 <= n <= |fs|
      ensures SentKeys(d, fs[..n]) <= SentKeys(d, fs)
    {
      assert forall i :: 0 <= i < n ==> fs[..n][i] == fs[i];
    }
  }

  /** Modulo equality, if old and new filters can all be listed: between the intersection and the union. */
  lemma FaithfulBounds(d: Driver, state: seq<Filter>, was: seq<Filter>, fs: seq<Filter>)
    requires Transitional(d, state, Keys(was), fs) && AllPlaced(fs)
    requires AllFaithful(d, state) && AllFaithful(d, was) && AllFaithful(d, fs)
    ensures Keys(was) * Keys(fs) <= Keys(state) <= Keys(was) + Keys(fs)
  {
    TransitionalBounds(d, state, Keys(was), fs);
    WireOfKeys(was);
    forall c | c in Kept(Keys(was), fs)
      ensures c in Keys(state)
    {
      var i :| 0 <= i < |was| && Canon(was[i]) == c;
      CanonKeepsWire(was[i]);
      assert Wire(c) == Wire(was[i]) && Wire(c) in WireKeys(state);
      var k :| 0 <= k < |state| && Wire(state[k]) == Wire(was[i]);
      FaithfulByWire(d, state[k], was[i]);
    }
    forall k | 0 <= k < |state|
      ensures Canon(state[k]) in Keys(was) + Keys(fs)
    {
      assert Wire(state[k]) in WireKeys(state);
      if i :| 0 <= i < |was| && Wire(was[i]) == Wire(state[k]) {
        FaithfulByWire(d, state[k], was[i]);
      } else {
        var i :| 0 <= i < |fs| && Wire(Sent(d, fs[i])) == Wire(state[k]);
        FaithfulIsAccepted(d, fs[i]);
        WireRespectsEquals(Sent(d, fs[i]), fs[i]);
        FaithfulByWire(d, state[k], fs[i]);
      }
    }
  }

  // ----- the order in which filters are added -----

  /** The additions that the first `n` desired filters give rise to. */
  function Additions(fs: seq<Filter>, was: set<Filter>, n: nat): seq<Filter>
    requires n <= |fs|
  {
    Select(KeyNotIn(was), Dedup(fs[..n]))
  }

  lemma AdditionsStep(fs: seq<Filter>, was: set<Filter>, n: nat)
    requires n < |fs|
    ensures Additions(fs, was, n + 1) == Additions(fs, was, n)
         || Additions(fs, was, n + 1) == Additions(fs, was, n) + [fs[n]]
  {
    DedupStep(fs, n);
    var d := Dedup(fs[..n]);
    assert (d + [fs[n]])[..|d|] == d;
  }

  /** Additions happen in list order: the first `i` of them are the additions of some initial part of the list. */
  lemma {:induction false} AdditionsInOrder(fs: seq<Filter>, was: set<Filter>, m: nat, i: nat) returns (n: nat)
    requires m <= |fs| && i <= |Additions(fs, was, m)|
    ensures n <= m && Additions(fs, was, n) == Additions(fs, was, m)[..i]
    decreases m
  {
    if i == |Additions(fs, was, m)| {
      n := m;
    } else {
      AdditionsStep(fs, was, m - 1);
      n := AdditionsInOrder(fs, was, m - 1, i);
    }
  }

  lemma AdditionsKeys(fs: seq<Filter>, was: set<Filter>, n: nat)
    requires n <= |fs|
    ensures Keys(Additions(fs, was, n)) == Keys(fs[..n]) - was
    ensures Kept(was, fs) + Keys(Additions(fs, was, n)) == Kept(was, fs) + Keys(fs[..n])
  {
    DedupKeys(fs[..n]);
    SelectKeySets(Dedup(fs[..n]), was);
    KeysAppend(fs[..n], fs[n..]);
    assert fs[..n] + fs[n..] == fs;
  }

  lemma AdditionsAreDesired(fs: seq<Filter>, was: set<Filter>)
    ensures forall f :: f in Additions(fs, was, |fs|) ==> f in fs && Canon(f) !in was
    ensures Distinct(Additions(fs, was, |fs|))
  {
    assert fs[..|fs|] == fs;
    DedupKeys(fs);
    SelectDistinct(KeyNotIn(was), Dedup(fs));
    SelectAfter(Dedup(fs), KeyNotIn(was));
    DedupMembers(fs);
  }

  lemma FaithfulAdditions(d: Driver, fs: seq<Filter>, was: set<Filter>, i: nat)
    requires AllFaithful(d, fs) && i <= |Additions(fs, was, |fs|)|
    ensures AllFaithful(d, Additions(fs, was, |fs|)[..i])
  {
    var toAdd := Additions(fs, was, |fs|);
    AdditionsAreDesired(fs, was);
    forall j | 0 <= j < i
      ensures Faithful(d, toAdd[..i][j])
    {
      assert toAdd[j] in fs;
    }
  }

  lemma DedupMembers(fs: seq<Filter>)
    ensures forall f :: f in Dedup(fs) ==> f in fs
  {
  }

  // ----- what additions make of a device -----

  /** `now` holds `base` and behind it what the kernel keeps of each filter of `added`. */
  ghost predicate Extends(d: Driver, base: seq<Filter>, added: seq<Filter>, now: seq<Filter>) {
    |now| == |base| + |added| && now[..|base|] == base &&
    forall j :: 0 <= j < |added| ==> Installs(d, added[j], now[|base| + j])
  }

  lemma ExtendsStep(d: Driver, base: seq<Filter>, added: seq<Filter>, i: nat, before: seq<Filter>, now: seq<Filter>)
    requires i < |added| && Extends(d, base, added[..i], before)
    requires |now| == |before| + 1 && now[..|before|] == before && Installs(d, added[i], now[|before|])
    ensures Extends(d, base, added[..i + 1], now)
  {
    assert now[..|base|] == before[..|base|];
    var more := added[..i + 1];
    forall j | 0 <= j < |more|
      ensures Installs(d, more[j], now[|base| + j])
    {
      if j < i {
        assert more[j] == added[..i][j] && now[|base| + j] == before[|base| + j];
      }
    }
  }

  lemma InstalledKey(d: Driver, f: Filter, g: Filter)
    requires Installs(d, f, g)
    ensures Canon(g) == Canon(f) <==> Faithful(d, f)
    ensures Given(f.attrs.priority) ==> Wire(g) == Wire(Sent(d, f))
  {
    StoredEqualsAdded(d, f, g.attrs.priority.value, g.attrs.handle.value);
    if Given(f.attrs.priority) {
      SentPriority(d, f);
      StoredKeepsWire(Sent(d, f), g.attrs.priority.value, g.attrs.handle.value);
    }
  }

  /** Adding faithful filters adds their equality classes. */
  lemma ExtendedKeys(d: Driver, base: seq<Filter>, added: seq<Filter>, now: seq<Filter>)
    requires Extends(d, base, added, now) && AllFaithful(d, added)
    ensures Keys(now) == Keys(base) + Keys(added)
  {
    var rest := now[|base|..];
    assert now == base + rest;
    KeysAppend(base, rest);
    forall j | 0 <= j < |added|
      ensures Canon(rest[j]) == Canon(added[j])
    {
      InstalledKey(d, added[j], now[|base| + j]);
    }
  }

  /** A listed filter that equals a desired one is what the desired one would become. */
  lemma ListedIsSent(d: Driver, f: Filter, g: Filter)
    requires Faithful(d, g) && Named(f) && Canon(f) == Canon(g)
    ensures Faithful(d, f) && Accepted(d, f) && Wire(Sent(d, f)) == Wire(g)
  {
    FaithfulRespectsEquals(d, f, g);
    FaithfulIsAccepted(d, f);
    WireRespectsEquals(Sent(d, f), g);
  }

  /** Convergence holds exactly for faithful filters. */
  lemma ConvergesIffFaithful(d: Driver, was: set<Filter>, fs: seq<Filter>, base: seq<Filter>, now: seq<Filter>)
    requires AllFaithful(d, now) && Keys(base) == Kept(was, fs) && Extends(d, base, Additions(fs, was, |fs|), now)
    ensures Keys(now) == Keys(fs) <==> AllFaithful(d, fs)
  {
    if AllFaithful(d, fs) {
      AdditionsAreDesired(fs, was);
      var toAdd := Additions(fs, was, |fs|);
      FaithfulAdditions(d, fs, was, |toAdd|);
      assert toAdd[..|toAdd|] == toAdd;
      ExtendedKeys(d, base, toAdd, now);
      AdditionsKeys(fs, was, |fs|);
      assert fs[..|fs|] == fs;
    }
    if Keys(now) == Keys(fs) {
      KeysMeanFaithful(d, fs, now);
    }
  }

  lemma KeysMeanFaithful(d: Driver, fs: seq<Filter>, now: seq<Filter>)
    requires AllFaithful(d, now) && Keys(fs) <= Keys(now)
    ensures AllFaithful(d, fs)
  {
    forall i | 0 <= i < |fs|
      ensures Faithful(d, fs[i])
    {
      assert Canon(fs[i]) in Keys(now);
      var k :| 0 <= k < |now| && Canon(now[k]) == Canon(fs[i]);
      FaithfulRespectsEquals(d, fs[i], now[k]);
    }
  }

  // ----- what is installed, as the kernel sees it -----

  /** Where the kernel keeps the desired filter `k`: at an old filter that equals it, or where it was added. */
  lemma SentIsInstalled(d: Driver, was: set<Filter>, fs: seq<Filter>, n: nat, base: seq<Filter>, now: seq<Filter>,
                        k: nat) returns (i: nat)
    requires n <= |fs| && AllFaithful(d, base) && Keys(base) == Kept(was, fs)
    requires Extends(d, base, Additions(fs, was, n), now)
    requires AllPlaced(fs) && k < n
    ensures i < |now| && Wire(now[i]) == Wire(Sent(d, fs[k])) && Accepted(d, fs[k])
    ensures Canon(fs[k]) == Canon(if i < |base| then base[i] else Additions(fs, was, n)[i - |base|])
  {
    assert fs[..n][k] == fs[k] && Canon(fs[k]) in Keys(fs[..n]) && Canon(fs[k]) in Keys(fs);
    if Canon(fs[k]) in was {
      i := KeptIsSent(d, base, fs[k]);
      assert now[i] == base[i];
    } else {
      var j, m := AdditionFor(fs, was, n, k);
      assert Installs(d, Additions(fs, was, n)[j], now[|base| + j]);
      AddedIsSent(d, fs[m], fs[k], now[|base| + j]);
      i := |base| + j;
    }
  }

  /** A desired filter that was not there is added, or an equal one. */
  lemma AdditionFor(fs: seq<Filter>, was: set<Filter>, n: nat, k: nat) returns (j: nat, m: nat)
    requires k < n <= |fs| && Canon(fs[k]) !in was
    ensures j < |Additions(fs, was, n)| && m < n && fs[m] == Additions(fs, was, n)[j] && Canon(fs[m]) == Canon(fs[k])
  {
    assert fs[..n][k] == fs[k];
    AdditionsKeys(fs, was, n);
    assert Canon(fs[k]) in Keys(Additions(fs, was, n));
    j :| 0 <= j < |Additions(fs, was, n)| && Canon(Additions(fs, was, n)[j]) == Canon(fs[k]);
    m := AdditionIsDesired(fs, was, n, j);
  }

  lemma KeptIsSent(d: Driver, base: seq<Filter>, f: Filter) returns (i: nat)
    requires AllFaithful(d, base) && Canon(f) in Keys(base) && Named(f)
    ensures i < |base| && Canon(base[i]) == Canon(f) && Wire(base[i]) == Wire(Sent(d, f)) && Accepted(d, f)
  {
    i :| 0 <= i < |base| && Canon(base[i]) == Canon(f);
    ListedIsSent(d, f, base[i]);
  }

  /** What the kernel keeps of an added filter is what it would keep of an equal one. */
  lemma AddedIsSent(d: Driver, added: Filter, f: Filter, g: Filter)
    requires Installs(d, added, g) && Given(added.attrs.priority) && Named(f) && Canon(added) == Canon(f)
    ensures Wire(g) == Wire(Sent(d, f)) && Accepted(d, f)
  {
    InstalledKey(d, added, g);
    SentRespectsEquals(d, added, f);
    AcceptedRespectsEquals(d, added, f);
  }

  lemma AdditionIsDesired(fs: seq<Filter>, was: set<Filter>, n: nat, j: nat) returns (k: nat)
    requires n <= |fs| && j < |Additions(fs, was, n)|
    ensures k < n && fs[k] == Additions(fs, was, n)[j] && Canon(fs[k]) !in was
  {
    SelectAfter(Dedup(fs[..n]), KeyNotIn(was));
    DedupMembers(fs[..n]);
    assert Additions(fs, was, n)[j] in Additions(fs, was, n);
    k :| 0 <= k < n && fs[..n][k] == Additions(fs, was, n)[j];
  }

  lemma AcceptedRespectsEquals(d: Driver, f: Filter, g: Filter)
    requires Accepted(d, f) && Named(g) && Canon(f) == Canon(g)
    ensures Accepted(d, g)
  {
  }

  /** What stays and the first additions are what stays and what was sent of an initial part of the list. */
  lemma ExtensionInWire(d: Driver, was: set<Filter>, fs: seq<Filter>, n: nat, base: seq<Filter>, now: seq<Filter>)
    requires n <= |fs| && AllFaithful(d, base) && Keys(base) == Kept(was, fs)
    requires Extends(d, base, Additions(fs, was, n), now) && AllPlaced(fs)
    ensures WireKeys(now) == WireOf(Kept(was, fs)) + SentKeys(d, fs[..n])
  {
    WireOfKeys(base);
    ExtensionComesFrom(d, was, fs, n, base, now);
    forall i | 0 <= i < |base|
      ensures Wire(base[i]) in WireKeys(now)
    {
      assert now[i] == base[i];
    }
    forall k | 0 <= k < n
      ensures Wire(Sent(d, fs[..n][k])) in WireKeys(now)
    {
      var i := SentIsInstalled(d, was, fs, n, base, now, k);
    }
  }

  lemma ExtensionComesFrom(d: Driver, was: set<Filter>, fs: seq<Filter>, n: nat, base: seq<Filter>, now: seq<Filter>)
    requires n <= |fs| && Extends(d, base, Additions(fs, was, n), now) && AllPlaced(fs)
    ensures WireKeys(now) <= WireKeys(base) + SentKeys(d, fs[..n])
  {
    forall i | 0 <= i < |now|
      ensures Wire(now[i]) in WireKeys(base) + SentKeys(d, fs[..n])
    {
      if i < |base| {
        assert now[i] == base[i];
      } else {
        var k := AdditionIsDesired(fs, was, n, i - |base|);
        assert now[i] == now[|base| + (i - |base|)];
        InstalledKey(d, fs[k], now[i]);
        assert fs[..n][k] == fs[k];
      }
    }
  }

  /** What is installed acts like what was asked for, whether or not it is listed as it was added. */
  lemma InstalledIsSent(d: Driver, was: set<Filter>, fs: seq<Filter>, base: seq<Filter>, now: seq<Filter>)
    requires AllFaithful(d, base) && Keys(base) == Kept(was, fs) && Extends(d, base, Additions(fs, was, |fs|), now)
    requires AllPlaced(fs)
    ensures WireKeys(now) == SentKeys(d, fs)
  {
    ExtensionInWire(d, was, fs, |fs|, base, now);
    assert fs[..|fs|] == fs;
    WireOfKeys(base);
    forall i | 0 <= i < |base|
      ensures Wire(base[i]) in SentKeys(d, fs)
    {
      assert Canon(base[i]) in Keys(base);
      var k :| 0 <= k < |fs| && Canon(fs[k]) == Canon(base[i]);
      ListedIsSent(d, fs[k], base[i]);
    }
  }

  /** A kernel that holds all desired filters has found no conflict among them. */
  lemma InstalledIsConflictFree(d: Driver, was: set<Filter>, fs: seq<Filter>, base: seq<Filter>, now: seq<Filter>)
    requires KernelOK(now) && AllFaithful(d, base) && Keys(base) == Kept(was, fs)
    requires Extends(d, base, Additions(fs, was, |fs|), now) && AllPlaced(fs)
    ensures AllAccepted(d, fs) && ConflictFree(d, fs)
  {
    forall k | 0 <= k < |fs|
      ensures Accepted(d, fs[k])
    {
      var i := SentIsInstalled(d, was, fs, |fs|, base, now, k);
    }
    forall k, m | 0 <= k < |fs| && 0 <= m < |fs| && Clash(Sent(d, fs[k]), Sent(d, fs[m]))
      ensures Canon(fs[k]) == Canon(fs[m])
    {
      var i := SentIsInstalled(d, was, fs, |fs|, base, now, k);
      var j := SentIsInstalled(d, was, fs, |fs|, base, now, m);
      ClashByWire(now[i], Sent(d, fs[k]), now[j], Sent(d, fs[m]));
      assert i == j;
    }
  }

  lemma ClashByWire(f: Filter, f': Filter, g: Filter, g': Filter)
    requires Wire(f) == Wire(f') && Wire(g) == Wire(g')
    ensures Clash(f, g) <==> Clash(f', g')
    ensures Clash(f, g) <==> Clash(g, f)
  {
    assert WireSpec(f.flower) == Wire(f).flower.value && WireSpec(g.flower) == Wire(g).flower.value;
    assert ChainOf(f) == Wire(f).attrs.chain.value && PrefOf(f) == Wire(f).attrs.priority.value;
    assert ChainOf(g) == Wire(g).attrs.chain.value && PrefOf(g) == Wire(g).attrs.priority.value;
  }

  /** If nothing differs there is nothing to add. */
  lemma NothingToAdd(fs: seq<Filter>, was: set<Filter>)
    requires Keys(fs) <= was
    ensures Additions(fs, was, |fs|) == []
  {
    forall k | 0 <= k < |fs|
      ensures Canon(fs[k]) in was
    {
      assert Canon(fs[k]) in Keys(fs);
    }
    if Additions(fs, was, |fs|) != [] {
      var k := AdditionIsDesired(fs, was, |fs|, 0);
    }
  }

  lemma AlreadyInstalled(d: Driver, fs: seq<Filter>, now: seq<Filter>)
    requires KernelOK(now) && AllFaithful(d, now) && Keys(now) == Keys(fs)
    ensures AllFaithful(d, fs)
    ensures AllPlaced(fs) ==> WireKeys(now) == SentKeys(d, fs) && AllAccepted(d, fs) && ConflictFree(d, fs)
  {
    NothingToAdd(fs, Keys(fs));
    KeysMeanFaithful(d, fs, now);
    if AllPlaced(fs) {
      InstalledIsSent(d, Keys(fs), fs, now, now);
      InstalledIsConflictFree(d, Keys(fs), fs, now, now);
    }
  }

  lemma {:induction false} DedupOfDistinct(fs: seq<Filter>)
    requires Distinct(fs)
    ensures Dedup(fs) == fs
  {
    if fs != [] {
      var n := |fs| - 1;
      DistinctPrefix(fs, n);
      DedupOfDistinct(fs[..n]);
      DedupStep(fs, n);
      assert fs[..n + 1] == fs;
      assert fs[..n] + [fs[n]] == fs;
    }
  }

  lemma SelectAfter(items: seq<Filter>, keep: Filter -> bool)
    ensures forall f :: f in Select(keep, items) ==> f in items && keep(f)
  {
  }

  method SetOf(fs: seq<Filter>) returns (s: FilterSet)
    ensures fresh(s) && s.Valid() && s.items == Dedup(fs) && Keys(s.items) == Keys(fs)
  {
    s := new FilterSet();
    for i := 0 to |fs|
      invariant fresh(s) && s.Valid() && s.items == Dedup(fs[..i])
    {
      s.Add(fs[i]);
      DedupStep(fs, i);
    }
    assert fs[..|fs|] == fs;
    DedupKeys(fs);
  }

  class ActuatorTC {
    const tcAPI: Device

    constructor (tcAPI: Device)
      ensures this.tcAPI == tcAPI
    {
      this.tcAPI := tcAPI;
    }

    /** The device holds what the driver was to ask for, so the kernel has taken all of it and found no conflict. */
    ghost predicate Holds(fs: seq<Filter>)
      reads tcAPI
    {
      WireKeys(tcAPI.filters) == SentKeys(tcAPI.driver, fs) && AllAccepted(tcAPI.driver, fs) &&
      ConflictFree(tcAPI.driver, fs)
    }

    /** What holds after the first `i` deletions. */
    static ghost predicate Removed(d: Driver, filters: seq<Filter>, history: seq<seq<Filter>>, toRemove: seq<Filter>,
                                   was: set<Filter>, fs: seq<Filter>, i: nat, states: seq<seq<Filter>>) {
      i <= |toRemove| && states <= history && |history| == |states| + i &&
      Keys(filters) == was - Keys(toRemove[..i]) &&
      (forall k :: i <= k < |toRemove| ==> toRemove[k] in filters) &&
      (i > 0 ==> history[|history| - 1] == filters) &&
      AllTransitional(d, history, |states|, was, fs)
    }

    static lemma RemovedNext(d: Driver, before: seq<Filter>, filters: seq<Filter>, history: seq<seq<Filter>>,
                             toRemove: seq<Filter>, was: set<Filter>, fs: seq<Filter>, i: nat,
                             states: seq<seq<Filter>>)
      requires Distinct(toRemove) && Keys(toRemove) == was - Keys(fs) && i < |toRemove|
      requires Removed(d, before, history, toRemove, was, fs, i, states)
      requires Keys(filters) == Keys(before) - {Canon(toRemove[i])}
      requires forall f :: f in before && f != toRemove[i] ==> f in filters
      ensures Removed(d, filters, history + [filters], toRemove, was, fs, i + 1, states)
    {
      KeysStep(toRemove, i);
      assert Removing(filters, was, fs);
      forall k | i + 1 <= k < |toRemove|
        ensures toRemove[k] in filters
      {
        assert Canon(toRemove[k]) != Canon(toRemove[i]);
      }
    }

    method RemoveOne(qdisc: QDiscType, toRemove: seq<Filter>, f: Filter, fs: seq<Filter>, ghost was: set<Filter>,
                     ghost i: nat, ghost states: seq<seq<Filter>>) returns (err: Option<TCError>)
      requires tcAPI.Valid() && tcAPI.ingress && qdisc == QDiscIngress
      requires Distinct(toRemove) && Keys(toRemove) == was - Keys(fs) && i < |toRemove| && f == toRemove[i]
      requires Removed(tcAPI.driver, tcAPI.filters, tcAPI.history, toRemove, was, fs, i, states)
      modifies tcAPI
      ensures tcAPI.Valid() && tcAPI.ingress
      ensures Removed(tcAPI.driver, tcAPI.filters, tcAPI.history, toRemove, was, fs, if err == None then i + 1 else i,
                      states)
      ensures err.Some? ==> err == Some(Fault)
    {
      ghost var before, history := tcAPI.filters, tcAPI.history;
      assert f in before;
      DeletingListed(before, f);
      err := tcAPI.FilterDel(qdisc, f.attrs);
      if err == None {
        RemovedNext(tcAPI.driver, before, tcAPI.filters, history, toRemove, was, fs, i, states);
      }
    }

    /** Deletes the listed filters that are not desired. */
    method RemoveAll(qdisc: QDiscType, toRemove: seq<Filter>, fs: seq<Filter>) returns (err: Option<TCError>)
      requires tcAPI.Valid() && tcAPI.ingress && qdisc == QDiscIngress
      requires toRemove == Select(KeyNotIn(Keys(fs)), tcAPI.filters)
      modifies tcAPI
      ensures tcAPI.Valid() && tcAPI.ingress
      ensures old(tcAPI.history) <= tcAPI.history
      ensures AllTransitional(tcAPI.driver, tcAPI.history, |old(tcAPI.history)|, old(Keys(tcAPI.filters)), fs)
      ensures err == None ==> Keys(tcAPI.filters) == Kept(old(Keys(tcAPI.filters)), fs)
      ensures err == None ==> |tcAPI.history| == |old(tcAPI.history)| + |toRemove|
      ensures err == None && toRemove != [] ==>
                PassesKept(tcAPI.history, |old(tcAPI.history)|, old(Keys(tcAPI.filters)), fs)
      ensures err.Some? ==> err == Some(Fault)
    {
      ghost var was := Keys(tcAPI.filters);
      ghost var states := tcAPI.history;
      RemovalPlan(tcAPI.filters, fs, toRemove);
      for i := 0 to |toRemove|
        invariant tcAPI.Valid() && tcAPI.ingress
        invariant Removed(tcAPI.driver, tcAPI.filters, tcAPI.history, toRemove, was, fs, i, states)
      {
        err := RemoveOne(qdisc, toRemove, toRemove[i], fs, was, i, states);
        if err != None {
          return;
        }
      }
      AllRemoved(tcAPI.driver, tcAPI.filters, tcAPI.history, toRemove, was, fs, states);
      return None;
    }

    static lemma RemovalPlan(installed: seq<Filter>, fs: seq<Filter>, toRemove: seq<Filter>)
      requires KernelOK(installed) && toRemove == Select(KeyNotIn(Keys(fs)), installed)
      ensures Distinct(toRemove) && Keys(toRemove) == Keys(installed) - Keys(fs)
      ensures forall k :: 0 <= k < |toRemove| ==> toRemove[k] in installed
    {
      KernelOKDistinct(installed);
      SelectDistinct(KeyNotIn(Keys(fs)), installed);
      SelectKeySets(installed, Keys(fs));
      SelectAfter(installed, KeyNotIn(Keys(fs)));
    }

    static lemma AllRemoved(d: Driver, filters: seq<Filter>, history: seq<seq<Filter>>, toRemove: seq<Filter>,
                            was: set<Filter>, fs: seq<Filter>, states: seq<seq<Filter>>)
      requires Keys(toRemove) == was - Keys(fs)
      requires Removed(d, filters, history, toRemove, was, fs, |toRemove|, states)
      ensures Keys(filters) == Kept(was, fs)
      ensures toRemove != [] ==> PassesKept(history, |states|, was, fs)
    {
      assert toRemove[..|toRemove|] == toRemove;
      if toRemove != [] {
        assert Keys(history[|history| - 1]) == Kept(was, fs);
      }
    }

    /** What holds after the first `i` additions to `base`. */
    ghost predicate AddedSoFar(base: seq<Filter>, fs: seq<Filter>, was: set<Filter>, i: nat, states: seq<seq<Filter>>)
      reads tcAPI
    {
      var toAdd := Additions(fs, was, |fs|);
      i <= |toAdd| && states <= tcAPI.history && |tcAPI.history| == |states| + i &&
      Extends(tcAPI.driver, base, toAdd[..i], tcAPI.filters) &&
      (AllPlaced(fs) ==> AllTransitional(tcAPI.driver, tcAPI.history, |states|, was, fs))
    }

    method AddOne(qdisc: QDiscType, fs: seq<Filter>, f: Filter, ghost base: seq<Filter>, ghost was: set<Filter>,
                  ghost i: nat, ghost states: seq<seq<Filter>>) returns (err: Option<TCError>)
      requires tcAPI.Valid() && tcAPI.ingress && qdisc == QDiscIngress
      requires AllFaithful(tcAPI.driver, base) && Keys(base) == Kept(was, fs) && AddedSoFar(base, fs, was, i, states)
      requires i < |Additions(fs, was, |fs|)| && f == Additions(fs, was, |fs|)[i] && f in fs
      modifies tcAPI
      ensures tcAPI.Valid() && tcAPI.ingress
      ensures AddedSoFar(base, fs, was, if err == None then i + 1 else i, states)
      ensures Installable(tcAPI.driver, fs) && err.Some? ==> err == Some(Fault)
    {
      ghost var before := tcAPI.filters;
      ghost var toAdd := Additions(fs, was, |fs|);
      err := tcAPI.FilterAdd(qdisc, f);
      if err != None {
        if Installable(tcAPI.driver, fs) {
          NotYetInstalled(tcAPI.driver, before, fs, base, was, i);
        }
      } else {
        ExtendsStep(tcAPI.driver, base, toAdd, i, before, tcAPI.filters);
        if AllPlaced(fs) {
          ExtensionIsTransitional(tcAPI.driver, base, fs, was, i + 1, tcAPI.filters);
        }
      }
    }

    static lemma ExtensionIsTransitional(d: Driver, base: seq<Filter>, fs: seq<Filter>, was: set<Filter>, i: nat,
                                         state: seq<Filter>)
      requires AllFaithful(d, base) && Keys(base) == Kept(was, fs) && AllPlaced(fs)
      requires i <= |Additions(fs, was, |fs|)| && Extends(d, base, Additions(fs, was, |fs|)[..i], state)
      ensures Adding(d, state, was, fs)
    {
      var n := AdditionsInOrder(fs, was, |fs|, i);
      ExtensionInWire(d, was, fs, n, base, state);
    }

    /** Adds the desired filters that are not installed. */
    method AddAll(qdisc: QDiscType, toAdd: seq<Filter>, fs: seq<Filter>, ghost was: set<Filter>)
      returns (err: Option<TCError>)
      requires tcAPI.Valid() && tcAPI.ingress && qdisc == QDiscIngress
      requires Keys(tcAPI.filters) == Kept(was, fs)
      requires toAdd == Additions(fs, was, |fs|)
      modifies tcAPI
      ensures tcAPI.Valid() && tcAPI.ingress
      ensures old(tcAPI.history) <= tcAPI.history
      ensures AllPlaced(fs) ==> AllTransitional(tcAPI.driver, tcAPI.history, |old(tcAPI.history)|, was, fs)
      ensures err == None ==> (Keys(tcAPI.filters) == Keys(fs) <==> AllFaithful(tcAPI.driver, fs))
      ensures err == None && AllPlaced(fs) ==> Holds(fs)
      ensures err == None ==> |tcAPI.history| == |old(tcAPI.history)| + |toAdd|
      ensures Installable(tcAPI.driver, fs) && err.Some? ==> err == Some(Fault)
    {
      ghost var states := tcAPI.history;
      ghost var base := tcAPI.filters;
      for i := 0 to |toAdd|
        invariant tcAPI.Valid() && tcAPI.ingress
        invariant AddedSoFar(base, fs, was, i, states)
      {
        AdditionsAreDesired(fs, was);
        err := AddOne(qdisc, fs, toAdd[i], base, was, i, states);
        if err != None {
          return;
        }
      }
      assert toAdd[..|toAdd|] == toAdd;
      ConvergesIffFaithful(tcAPI.driver, was, fs, base, tcAPI.filters);
      if AllPlaced(fs) {
        InstalledIsSent(tcAPI.driver, was, fs, base, tcAPI.filters);
        InstalledIsConflictFree(tcAPI.driver, was, fs, base, tcAPI.filters);
      }
      return None;
    }

    /** An addition that is still to come clashes with nothing that is installed. */
    static lemma NotYetInstalled(d: Driver, installed: seq<Filter>, fs: seq<Filter>, base: seq<Filter>,
                                 was: set<Filter>, i: nat)
      requires Installable(d, fs) && i < |Additions(fs, was, |fs|)|
      requires AllFaithful(d, base) && Keys(base) == Kept(was, fs)
      requires Extends(d, base, Additions(fs, was, |fs|)[..i], installed)
      ensures Accepted(d, Additions(fs, was, |fs|)[i])
      ensures forall k :: 0 <= k < |installed| ==> !Clash(installed[k], Sent(d, Additions(fs, was, |fs|)[i]))
    {
      var toAdd := Additions(fs, was, |fs|);
      var m := AdditionIsDesired(fs, was, |fs|, i);
      AdditionsAreDesired(fs, was);
      forall k | 0 <= k < |installed|
        ensures !Clash(installed[k], Sent(d, fs[m]))
      {
        var n := DesiredBehind(d, installed, fs, base, was, i, k);
        ClashByWire(installed[k], Sent(d, fs[n]), Sent(d, fs[m]), Sent(d, fs[m]));
      }
    }

    /** Each installed filter is a desired one as sent, and not one that is still to come. */
    static lemma DesiredBehind(d: Driver, installed: seq<Filter>, fs: seq<Filter>, base: seq<Filter>,
                               was: set<Filter>, i: nat, k: nat) returns (n: nat)
      requires AllPlaced(fs) && i < |Additions(fs, was, |fs|)| && k < |installed|
      requires AllFaithful(d, base) && Keys(base) == Kept(was, fs)
      requires Extends(d, base, Additions(fs, was, |fs|)[..i], installed)
      ensures n < |fs| && Wire(installed[k]) == Wire(Sent(d, fs[n]))
      ensures Canon(fs[n]) != Canon(Additions(fs, was, |fs|)[i])
    {
      var toAdd := Additions(fs, was, |fs|);
      AdditionsAreDesired(fs, was);
      assert toAdd[i] in toAdd;
      if k < |base| {
        assert installed[k] == base[k] && Canon(base[k]) in Keys(base);
        n :| 0 <= n < |fs| && Canon(fs[n]) == Canon(base[k]);
        ListedIsSent(d, fs[n], base[k]);
      } else {
        n := AdditionIsDesired(fs, was, |fs|, k - |base|);
        assert toAdd[..i][k - |base|] == fs[n];
        InstalledKey(d, fs[n], installed[k]);
      }
    }

    /** Makes the device's filters the given ones. */
    method Actuate(objects: Objects) returns (err: Option<TCError>)
      requires tcAPI.Valid()
      modifies tcAPI
      ensures tcAPI.Valid() && old(tcAPI.history) <= tcAPI.history
      // without a qdisc the device loses its ingress qdisc, and filters are refused outright
      ensures objects.qdisc == None && objects.filters != [] ==>
                err == Some(NilQDisc) && tcAPI.filters == old(tcAPI.filters) && tcAPI.history == old(tcAPI.history)
      ensures objects.qdisc == None && err == None ==> !tcAPI.ingress && tcAPI.filters == []
      // without filters chain 0 is emptied and no other chain touched
      ensures objects.qdisc != None && objects.filters == [] && err == None ==>
                tcAPI.filters == Select(OutsideChain(0), old(tcAPI.filters)) && tcAPI.ingress == old(tcAPI.ingress)
      // a run that asks for no filters and fails changes nothing
      ensures objects.filters == [] && err.Some? ==>
                tcAPI.filters == old(tcAPI.filters) && tcAPI.ingress == old(tcAPI.ingress) &&
                tcAPI.history == old(tcAPI.history)
      // with filters a success leaves exactly the desired ones, whatever was there before, if and only if they are
      // faithful
      ensures objects.filters != [] && err == None ==> objects.qdisc == Some(QDiscIngress) && tcAPI.ingress
      ensures objects.filters != [] && err == None ==>
                (Keys(tcAPI.filters) == Keys(objects.filters) <==> AllFaithful(tcAPI.driver, objects.filters))
      // faithful or not, what is installed acts like what the driver was to ask for, and holds no conflict
      ensures objects.filters != [] && err == None && AllPlaced(objects.filters) ==> Holds(objects.filters)
      // only transient faults stop installable filters
      ensures objects.qdisc == Some(QDiscIngress) && Installable(tcAPI.driver, objects.filters) && err.Some? ==>
                err == Some(Fault)
      // every state on the way, of a success or a failure, is transitional
      ensures objects.filters != [] && AllPlaced(objects.filters) ==>
                AllTransitional(tcAPI.driver, tcAPI.history, |old(tcAPI.history)|, old(Keys(tcAPI.filters)),
                                objects.filters)
      // a success that deletes something leaves the device for a while with what is old and desired
      ensures objects.filters != [] && err == None && !(old(Keys(tcAPI.filters)) <= Keys(objects.filters)) ==>
                PassesKept(tcAPI.history, |old(tcAPI.history)|, old(Keys(tcAPI.filters)), objects.filters)
      // what is as desired already is left alone, and nothing else is
      ensures objects.filters != [] && err == None && old(Keys(tcAPI.filters)) != Keys(objects.filters) ==>
                |tcAPI.history| > |old(tcAPI.history)|
      ensures objects.qdisc == Some(QDiscIngress) && objects.filters != [] && old(tcAPI.ingress) &&
              old(Keys(tcAPI.filters)) == Keys(objects.filters) ==>
                tcAPI.filters == old(tcAPI.filters) && tcAPI.history == old(tcAPI.history)
    {
      if objects.qdisc == None && |objects.filters| > 0 {
        return Some(NilQDisc);
      }
      var currentQDiscs := tcAPI.QDiscList();
      if currentQDiscs.Err? {
        return Some(currentQDiscs.error);
      }
      var ingressQDiscExist := false;
      for i := 0 to |currentQDiscs.value|
        invariant !ingressQDiscExist && QDiscIngress !in currentQDiscs.value[..i]
      {
        if currentQDiscs.value[i] == QDiscIngress {
          ingressQDiscExist := true;
          break;
        }
      }
      assert ingressQDiscExist == tcAPI.ingress by {
        assert currentQDiscs.value[..|currentQDiscs.value|] == currentQDiscs.value;
      }
      if objects.qdisc == None {
        if ingressQDiscExist {
          err := tcAPI.QDiscDel(QDiscIngress);
          return;
        }
        return None;
      }
      var qdisc := objects.qdisc.value;
      if |objects.filters| == 0 {
        err := DeleteChainZero(qdisc);
        return;
      }
      err := Install(qdisc, objects.filters, ingressQDiscExist);
    }

    method DeleteChainZero(qdisc: QDiscType) returns (err: Option<TCError>)
      requires tcAPI.Valid()
      modifies tcAPI
      ensures tcAPI.Valid() && old(tcAPI.history) <= tcAPI.history
      ensures tcAPI.ingress == old(tcAPI.ingress)
      ensures err == None ==> tcAPI.filters == Select(OutsideChain(0), old(tcAPI.filters))
      ensures err.Some? && qdisc == QDiscIngress ==> err == Some(Fault)
      ensures err.Some? ==> tcAPI.filters == old(tcAPI.filters) && tcAPI.history == old(tcAPI.history)
    {
      var chains := tcAPI.ChainList(QDiscIngress);
      if chains.Err? {
        return Some(chains.error);
      }
      for i := 0 to |chains.value|
        invariant 0 !in chains.value[..i]
        invariant tcAPI.Valid() && tcAPI.filters == old(tcAPI.filters) && tcAPI.history == old(tcAPI.history)
        invariant tcAPI.ingress == old(tcAPI.ingress) && tcAPI.chains == old(tcAPI.chains)
      {
        if chains.value[i] == 0 {
          err := tcAPI.ChainDel(qdisc, 0);
          return;
        }
      }
      assert chains.value[..|chains.value|] == chains.value;
      NothingInChain(0, tcAPI.filters);
      return None;
    }

    static lemma {:induction false} NothingInChain(chain: u32, fs: seq<Filter>)
      requires forall i :: 0 <= i < |fs| ==> ChainOf(fs[i]) != chain
      ensures Select(OutsideChain(chain), fs) == fs
    {
      if fs != [] {
        NothingInChain(chain, fs[..|fs| - 1]);
      }
    }

    method Install(qdisc: QDiscType, fs: seq<Filter>, ingressQDiscExist: bool) returns (err: Option<TCError>)
      requires tcAPI.Valid() && fs != [] && ingressQDiscExist == tcAPI.ingress
      modifies tcAPI
      ensures tcAPI.Valid() && old(tcAPI.history) <= tcAPI.history
      ensures err == None ==> qdisc == QDiscIngress && tcAPI.ingress
      ensures err == None ==> (Keys(tcAPI.filters) == Keys(fs) <==> AllFaithful(tcAPI.driver, fs))
      ensures err == None && AllPlaced(fs) ==> Holds(fs)
      ensures err == None && old(Keys(tcAPI.filters)) != Keys(fs) ==> |tcAPI.history| > |old(tcAPI.history)|
      ensures qdisc == QDiscIngress && Installable(tcAPI.driver, fs) && err.Some? ==> err == Some(Fault)
      ensures AllPlaced(fs) ==>
                AllTransitional(tcAPI.driver, tcAPI.history, |old(tcAPI.history)|, old(Keys(tcAPI.filters)), fs)
      ensures err == None && !(old(Keys(tcAPI.filters)) <= Keys(fs)) ==>
                PassesKept(tcAPI.history, |old(tcAPI.history)|, old(Keys(tcAPI.filters)), fs)
      ensures old(tcAPI.ingress) && old(Keys(tcAPI.filters)) == Keys(fs) ==>
                tcAPI.filters == old(tcAPI.filters) && tcAPI.history == old(tcAPI.history)
    {
      ghost var was := Keys(tcAPI.filters);
      ghost var states := tcAPI.history;
      if !ingressQDiscExist {
        err := tcAPI.QDiscAdd(qdisc);
        if err != None {
          return;
        }
        assert Removing([], was, fs);
      }
      var existing := tcAPI.FilterList(qdisc);
      if existing.Err? {
        return Some(existing.error);
      }
      ghost var middle := tcAPI.history;
      err := Reconcile(qdisc, existing.value, fs);
      JoinTransitional(tcAPI.driver, states, middle, tcAPI.history, was, fs);
    }

    static lemma JoinTransitional(d: Driver, first: seq<seq<Filter>>, middle: seq<seq<Filter>>, last: seq<seq<Filter>>,
                                  was: set<Filter>, fs: seq<Filter>)
      requires first <= middle <= last
      ensures AllTransitional(d, middle, |first|, was, fs) && AllTransitional(d, last, |middle|, was, fs) ==>
                AllTransitional(d, last, |first|, was, fs)
      ensures PassesKept(middle, |first|, was, fs) || PassesKept(last, |middle|, was, fs) ==>
                PassesKept(last, |first|, was, fs)
    {
      if k :| |first| <= k < |middle| && Keys(middle[k]) == Kept(was, fs) {
        assert last[k] == middle[k];
      }
    }

    static lemma SomethingToDo(installed: seq<Filter>, fs: seq<Filter>, toRemove: seq<Filter>, toAdd: seq<Filter>)
      requires KernelOK(installed) && toRemove == Select(KeyNotIn(Keys(fs)), installed)
      requires toAdd == Additions(fs, Keys(installed), |fs|) && Keys(installed) != Keys(fs)
      ensures |toRemove| + |toAdd| > 0
      ensures !(Keys(installed) <= Keys(fs)) ==> toRemove != []
    {
      RemovalPlan(installed, fs, toRemove);
      AdditionsKeys(fs, Keys(installed), |fs|);
      assert fs[..|fs|] == fs;
      if Keys(installed) <= Keys(fs) {
        var x :| x in Keys(fs) && x !in Keys(installed);
        assert x in Keys(toAdd);
      } else {
        var x :| x in Keys(installed) && x !in Keys(fs);
        assert x in Keys(toRemove);
      }
    }

    /** What is listed and not desired, and what is desired and not listed. */
    static method Differences(existing: seq<Filter>, fs: seq<Filter>)
      returns (same: bool, toRemove: seq<Filter>, toAdd: seq<Filter>)
      requires KernelOK(existing)
      ensures same <==> Keys(existing) == Keys(fs)
      ensures !same ==> toRemove == Select(KeyNotIn(Keys(fs)), existing) && toAdd == Additions(fs, Keys(existing), |fs|)
    {
      var existingFilterSet := SetOf(existing);
      var newFilterSet := SetOf(fs);
      same := existingFilterSet.Equals(newFilterSet);
      if same {
        return true, [], [];
      }
      KernelOKDistinct(existing);
      DedupOfDistinct(existing);
      assert fs[..|fs|] == fs;
      var difference := existingFilterSet.Difference(newFilterSet);
      toRemove := difference.List();
      difference := newFilterSet.Difference(existingFilterSet);
      toAdd := difference.List();
    }

    /** Deletes what is installed and not desired, then adds what is desired and not installed. */
    method Reconcile(qdisc: QDiscType, existing: seq<Filter>, fs: seq<Filter>) returns (err: Option<TCError>)
      requires tcAPI.Valid() && tcAPI.ingress && qdisc == QDiscIngress && existing == tcAPI.filters
      modifies tcAPI
      ensures tcAPI.Valid() && tcAPI.ingress && old(tcAPI.history) <= tcAPI.history
      ensures err == None ==> (Keys(tcAPI.filters) == Keys(fs) <==> AllFaithful(tcAPI.driver, fs))
      ensures err == None && AllPlaced(fs) ==> Holds(fs)
      ensures err == None && old(Keys(tcAPI.filters)) != Keys(fs) ==> |tcAPI.history| > |old(tcAPI.history)|
      ensures Installable(tcAPI.driver, fs) && err.Some? ==> err == Some(Fault)
      ensures AllPlaced(fs) ==>
                AllTransitional(tcAPI.driver, tcAPI.history, |old(tcAPI.history)|, old(Keys(tcAPI.filters)), fs)
      ensures err == None && !(old(Keys(tcAPI.filters)) <= Keys(fs)) ==>
                PassesKept(tcAPI.history, |old(tcAPI.history)|, old(Keys(tcAPI.filters)), fs)
      ensures old(Keys(tcAPI.filters)) == Keys(fs) ==>
                tcAPI.filters == old(tcAPI.filters) && tcAPI.history == old(tcAPI.history)
    {
      var same, toRemove, toAdd := Differences(existing, fs);
      if same {
        AlreadyInstalled(tcAPI.driver, fs, existing);
        return None;
      }
      err := Replace(qdisc, toRemove, toAdd, fs);
    }

    method Replace(qdisc: QDiscType, toRemove: seq<Filter>, toAdd: seq<Filter>, fs: seq<Filter>)
      returns (err: Option<TCError>)
      requires tcAPI.Valid() && tcAPI.ingress && qdisc == QDiscIngress && Keys(tcAPI.filters) != Keys(fs)
      requires toRemove == Select(KeyNotIn(Keys(fs)), tcAPI.filters)
      requires toAdd == Additions(fs, Keys(tcAPI.filters), |fs|)
      modifies tcAPI
      ensures tcAPI.Valid() && tcAPI.ingress && old(tcAPI.history) <= tcAPI.history
      ensures err == None ==> (Keys(tcAPI.filters) == Keys(fs) <==> AllFaithful(tcAPI.driver, fs))
      ensures err == None && AllPlaced(fs) ==> Holds(fs)
      ensures err == None ==> |tcAPI.history| > |old(tcAPI.history)|
      ensures Installable(tcAPI.driver, fs) && err.Some? ==> err == Some(Fault)
      ensures AllPlaced(fs) ==>
                AllTransitional(tcAPI.driver, tcAPI.history, |old(tcAPI.history)|, old(Keys(tcAPI.filters)), fs)
      ensures err == None && !(old(Keys(tcAPI.filters)) <= Keys(fs)) ==>
                PassesKept(tcAPI.history, |old(tcAPI.history)|, old(Keys(tcAPI.filters)), fs)
    {
      ghost var was := Keys(tcAPI.filters);
      ghost var states := tcAPI.history;
      SomethingToDo(tcAPI.filters, fs, toRemove, toAdd);
      err := RemoveAll(qdisc, toRemove, fs);
      if err != None {
        return;
      }
      ghost var middle := tcAPI.history;
      err := AddAll(qdisc, toAdd, fs, was);
      JoinTransitional(tcAPI.driver, states, middle, tcAPI.history, was, fs);
    }
  }

  /**
   * Two runs with the same objects, as the periodic sync makes them: a success of the second installs the desired
   * filters however the first one ended. After a success of the first it has nothing to do if the filters are
   * faithful; if they are not, it deletes or adds filters again, so the reconciler never settles.
   */
  method ActuateAgain(actuator: ActuatorTC, objects: Objects)
    returns (first: Option<TCError>, second: Option<TCError>, ghost middle: seq<seq<Filter>>)
    requires actuator.tcAPI.Valid()
    requires objects.qdisc == Some(QDiscIngress) && objects.filters != []
    modifies actuator.tcAPI
    ensures actuator.tcAPI.Valid()
    // `middle` is the history between the runs
    ensures old(actuator.tcAPI.history) <= middle <= actuator.tcAPI.history
    ensures second == None ==>
              (Keys(actuator.tcAPI.filters) == Keys(objects.filters) <==>
               AllFaithful(actuator.tcAPI.driver, objects.filters))
    ensures first == None && AllFaithful(actuator.tcAPI.driver, objects.filters) ==>
              Keys(actuator.tcAPI.filters) == Keys(objects.filters) && actuator.tcAPI.history == middle
    ensures first == None && second == None ==>
              (actuator.tcAPI.history == middle <==> AllFaithful(actuator.tcAPI.driver, objects.filters))
  {
    first := actuator.Actuate(objects);
    middle := actuator.tcAPI.history;
    second := actuator.Actuate(objects);
  }
}
