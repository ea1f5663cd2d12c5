/** The change trackers and the maps they feed, as objects: Update merges an event, Apply drains the pending changes. */
module ChangeTrackers {
  import opened Collections
  import opened Trackers

  /** The map made from an object; it is empty without an object and for one that yields no entry. */
  function ToMap<O, K, V>(keyOf: O -> K, infoOf: O -> Option<V>, obj: Option<O>): map<K, V> {
    if obj.None? || infoOf(obj.value).None? then map[] else map[keyOf(obj.value) := infoOf(obj.value).value]
  }

  function EventOf<O, K, V>(keyOf: O -> K, infoOf: O -> Option<V>, previous: Option<O>, current: Option<O>): Event<K, V>
    requires previous.Some? || current.Some?
  {
    Event(keyOf(if current.Some? then current.value else previous.value),
          ToMap(keyOf, infoOf, previous), ToMap(keyOf, infoOf, current))
  }

  class ChangeTracker<O, K(==), V(==)> {
    const keyOf: O -> K
    const infoOf: O -> Option<V>
    var items: map<K, Change<K, V>>

    constructor (keyOf: O -> K, infoOf: O -> Option<V>)
      ensures this.keyOf == keyOf && this.infoOf == infoOf && items == map[]
    {
      this.keyOf := keyOf;
      this.infoOf := infoOf;
      items := map[];
    }

    method Update(previous: Option<O>, current: Option<O>) returns (tracked: bool)
      modifies this
      ensures tracked <==> previous.Some? || current.Some?
      ensures items == if tracked then Track(old(items), EventOf(keyOf, infoOf, previous, current)) else old(items)
    {
      var obj := current;
      if obj == None {
        obj := previous;
      }
      if obj == None {
        return false;
      }
      var key := keyOf(obj.value);
      if key !in items {
        items := items[key := Change(ToMap(keyOf, infoOf, previous), map[])];
      }
      items := items[key := items[key].(current := ToMap(keyOf, infoOf, current))];
      if items[key].previous == items[key].current {
        items := items - {key};
      }
      return true;
    }
  }

  class InfoMap<K(==), V(==)> {
    var entries: map<K, V>

    constructor ()
      ensures entries == map[]
    {
      entries := map[];
    }

    method Merge(other: map<K, V>)
      modifies this
      ensures entries == old(entries) + other
    {
      var rest := other.Keys;
      while rest != {}
        invariant rest <= other.Keys
        invariant entries == old(entries) + (other - rest)
        decreases |rest|
      {
        var k :| k in rest;
        entries := entries[k := other[k]];
        rest := rest - {k};
      }
    }

    method Unmerge(other: map<K, V>)
      modifies this
      ensures entries == old(entries) - other.Keys
    {
      var rest := other.Keys;
      while rest != {}
        invariant rest <= other.Keys
        invariant entries == old(entries) - (other.Keys - rest)
        decreases |rest|
      {
        var k :| k in rest;
        entries := entries - {k};
        rest := rest - {k};
      }
    }

    method ApplyChange(change: Change<K, V>)
      modifies this
      ensures entries == ApplyOne(old(entries), change)
    {
      Unmerge(change.previous);
      Merge(change.current);
    }

    /** Applies pending changes in arbitrary order. */
    method ApplyItems(items: map<K, Change<K, V>>)
      requires Local(items)
      modifies this
      ensures entries == ApplyAll(old(entries), items)
    {
      ghost var was := entries;
      var rest := items;
      while rest.Keys != {}
        invariant Local(rest)
        invariant ApplyAll(entries, rest) == ApplyAll(was, items)
        decreases |rest|
      {
        var k :| k in rest.Keys;
        ApplyOneOfMany(entries, rest, k);
        ghost var next := ApplyOne(entries, rest[k]);
        ApplyChange(rest[k]);
        assert entries == next;
        rest := rest - {k};
      }
      NothingToApply(entries, rest);
    }

    /** Drains the pending changes into the map. */
    method Apply<O>(changes: ChangeTracker<O, K, V>)
      requires Local(changes.items)
      modifies this, changes
      ensures entries == ApplyAll(old(entries), old(changes.items))
      ensures changes.items == map[]
    {
      ApplyItems(changes.items);
      changes.items := map[];
    }
  }

  lemma NothingToApply<K, V>(m: map<K, V>, items: map<K, Change<K, V>>)
    requires items.Keys == {}
    ensures ApplyAll(m, items) == m
  {
  }

  // ----- deliveries of objects -----

  /** The objects delivered so far, by key, after one more delivery. */
  function Delivered<O, K>(keyOf: O -> K, objs: map<K, O>, previous: Option<O>, current: Option<O>): map<K, O>
    requires previous.Some? || current.Some?
  {
    if current.Some? then objs[keyOf(current.value) := current.value] else objs - {keyOf(previous.value)}
  }

  /** The entries that the delivered objects give rise to. */
  function Infos<O, K, V>(infoOf: O -> Option<V>, objs: map<K, O>): map<K, V> {
    map k | k in objs && infoOf(objs[k]).Some? :: infoOf(objs[k]).value
  }

  /** The previous object is the last one delivered under the key, and both objects have the same key. */
  predicate Follows<O(==), K(==)>(keyOf: O -> K, objs: map<K, O>, previous: Option<O>, current: Option<O>) {
    (previous.Some? || current.Some?) &&
    var key := keyOf(if current.Some? then current.value else previous.value);
    (previous.Some? ==> keyOf(previous.value) == key && key in objs && objs[key] == previous.value) &&
    (previous.None? ==> key !in objs)
  }

  predicate KeyedBy<O, K(==)>(keyOf: O -> K, objs: map<K, O>) {
    forall k :: k in objs ==> keyOf(objs[k]) == k
  }

  /** Events made from objects act on their entries as direct application, also for objects without an entry. */
  lemma DeliveredInfos<O, K(!new), V(!new)>(
    keyOf: O -> K, infoOf: O -> Option<V>, objs: map<K, O>, previous: Option<O>, current: Option<O>)
    requires KeyedBy(keyOf, objs) && Follows(keyOf, objs, previous, current)
    ensures var ev := EventOf(keyOf, infoOf, previous, current);
            LocalEvent(ev) && ev.previous == At(Infos(infoOf, objs), ev.key) &&
            Infos(infoOf, Delivered(keyOf, objs, previous, current)) == Direct(Infos(infoOf, objs), ev)
    ensures KeyedBy(keyOf, Delivered(keyOf, objs, previous, current))
  {
    var ev := EventOf(keyOf, infoOf, previous, current);
    var a, b := Infos(infoOf, Delivered(keyOf, objs, previous, current)), Direct(Infos(infoOf, objs), ev);
    forall k
      ensures k in a <==> k in b
      ensures k in a && k in b ==> a[k] == b[k]
    {
    }
  }

  /** A tracker and its map are in step with the objects delivered so far. */
  ghost predicate Follow<O, K(!new), V(!new)>(keyOf: O -> K, infoOf: O -> Option<V>, entries: map<K, V>,
                                              items: map<K, Change<K, V>>, objs: map<K, O>) {
    KeyedBy(keyOf, objs) && InStep(Tracked(entries, items, Infos(infoOf, objs)))
  }

  lemma NothingFollows<O, K(!new), V(!new)>(keyOf: O -> K, infoOf: O -> Option<V>)
    ensures Follow<O, K, V>(keyOf, infoOf, map[], map[], map[])
  {
  }

  lemma EventFollows<O, K(!new), V(!new)>(
    keyOf: O -> K, infoOf: O -> Option<V>, entries: map<K, V>, items: map<K, Change<K, V>>, objs: map<K, O>,
    previous: Option<O>, current: Option<O>)
    requires Follow(keyOf, infoOf, entries, items, objs) && Follows(keyOf, objs, previous, current)
    ensures Follow(keyOf, infoOf, entries, Track(items, EventOf(keyOf, infoOf, previous, current)),
                   Delivered(keyOf, objs, previous, current))
  {
    DeliveredInfos(keyOf, infoOf, objs, previous, current);
    FaithfulEventStaysInStep(Tracked(entries, items, Infos(infoOf, objs)),
                             EventOf(keyOf, infoOf, previous, current));
  }

  /** What an event makes of the tracker, whether or not it was in step. */
  lemma EventTracked<O, K(!new), V(!new)>(
    keyOf: O -> K, infoOf: O -> Option<V>, entries: map<K, V>, items: map<K, Change<K, V>>, objs: map<K, O>,
    previous: Option<O>, current: Option<O>)
    requires Local(items) && KeyedBy(keyOf, objs) && Follows(keyOf, objs, previous, current)
    ensures var ev := EventOf(keyOf, infoOf, previous, current);
            var now := Delivered(keyOf, objs, previous, current);
            ApplyAll(entries, Track(items, ev)) == Tracking(entries, items, ev) && Local(Track(items, ev)) &&
            KeyedBy(keyOf, now) &&
            (Follow(keyOf, infoOf, entries, items, objs) ==> Follow(keyOf, infoOf, entries, Track(items, ev), now))
  {
    DeliveredInfos(keyOf, infoOf, objs, previous, current);
    TrackedEntries(entries, items, EventOf(keyOf, infoOf, previous, current));
    if Follow(keyOf, infoOf, entries, items, objs) {
      EventFollows(keyOf, infoOf, entries, items, objs, previous, current);
    }
  }

  lemma DrainedFollows<O, K(!new), V(!new)>(
    keyOf: O -> K, infoOf: O -> Option<V>, entries: map<K, V>, items: map<K, Change<K, V>>, objs: map<K, O>)
    requires Follow(keyOf, infoOf, entries, items, objs)
    ensures Local(items) && ApplyAll(entries, items) == Infos(infoOf, objs)
    ensures Follow(keyOf, infoOf, ApplyAll(entries, items), map[], objs)
  {
    ConsistentApplies(entries, items, Infos(infoOf, objs));
  }

  /** Trackers in step stay so under another reading of the objects exactly when it gives the same entries. */
  lemma FollowsIffSameInfos<O, K(!new), V(!new)>(
    keyOf: O -> K, before: O -> Option<V>, now: O -> Option<V>, entries: map<K, V>, items: map<K, Change<K, V>>,
    objs: map<K, O>)
    requires Follow(keyOf, before, entries, items, objs)
    ensures Follow(keyOf, now, entries, items, objs) <==> Infos(before, objs) == Infos(now, objs)
  {
    ConsistentApplies(entries, items, Infos(before, objs));
    if Follow(keyOf, now, entries, items, objs) {
      ConsistentApplies(entries, items, Infos(now, objs));
    }
  }

  /** A delivery, or the moment when the pending changes are applied. */
  datatype Feed<O> = Arrives(previous: Option<O>, current: Option<O>) | Drain

  /** Each delivery follows those before it. */
  predicate FollowsAll<O(==), K(==)>(keyOf: O -> K, objs: map<K, O>, feed: seq<Feed<O>>)
    decreases |feed|
  {
    feed == [] ||
    match feed[0]
    case Arrives(previous, current) =>
      Follows(keyOf, objs, previous, current) &&
      FollowsAll(keyOf, Delivered(keyOf, objs, previous, current), feed[1..])
    case Drain => FollowsAll(keyOf, objs, feed[1..])
  }

  function DeliveredAll<O(==), K(==)>(keyOf: O -> K, objs: map<K, O>, feed: seq<Feed<O>>): map<K, O>
    requires FollowsAll(keyOf, objs, feed)
    decreases |feed|
  {
    if feed == [] then objs
    else
      match feed[0]
      case Arrives(previous, current) => DeliveredAll(keyOf, Delivered(keyOf, objs, previous, current), feed[1..])
      case Drain => DeliveredAll(keyOf, objs, feed[1..])
  }

  /** The tracker and its map after a feed. */
  function RunFeed<O(==), K(==), V(==)>(
    t: Tracked<K, V>, keyOf: O -> K, infoOf: O -> Option<V>, objs: map<K, O>, feed: seq<Feed<O>>): Tracked<K, V>
    requires FollowsAll(keyOf, objs, feed)
    decreases |feed|
  {
    if feed == [] then t
    else
      match feed[0]
      case Arrives(previous, current) =>
        RunFeed(Next(t, Deliver(EventOf(keyOf, infoOf, previous, current))), keyOf, infoOf,
                Delivered(keyOf, objs, previous, current), feed[1..])
      case Drain => RunFeed(Next(t, Step.Apply), keyOf, infoOf, objs, feed[1..])
  }

  /**
   * For every well-formed feed of objects, with applications at any moments, applying what is pending gives exactly the
   * entries of the objects delivered last.
   */
  lemma {:induction false} FeedIsTracked<O, K(!new), V(!new)>(
    t: Tracked<K, V>, keyOf: O -> K, infoOf: O -> Option<V>, objs: map<K, O>, feed: seq<Feed<O>>)
    requires InStep(t) && t.live == Infos(infoOf, objs) && KeyedBy(keyOf, objs) && FollowsAll(keyOf, objs, feed)
    ensures var r := RunFeed(t, keyOf, infoOf, objs, feed);
            InStep(r) && ApplyAll(r.m, r.items) == r.live == Infos(infoOf, DeliveredAll(keyOf, objs, feed))
    decreases |feed|
  {
    if feed == [] {
      ConsistentApplies(t.m, t.items, t.live);
    } else {
      match feed[0] {
        case Arrives(previous, current) =>
          var ev := EventOf(keyOf, infoOf, previous, current);
          DeliveredInfos(keyOf, infoOf, objs, previous, current);
          FaithfulEventStaysInStep(t, ev);
          FeedIsTracked(Next(t, Deliver(ev)), keyOf, infoOf, Delivered(keyOf, objs, previous, current), feed[1..]);
        case Drain =>
          ConsistentApplies(t.m, t.items, t.live);
          FeedIsTracked(Next(t, Step.Apply), keyOf, infoOf, objs, feed[1..]);
      }
    }
  }
}
