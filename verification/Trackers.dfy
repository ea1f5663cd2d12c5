/**
 * Change tracking: events on cluster objects are merged into one pending change per key and applied to a map later.
 * Policies, namespaces, network definitions and pods all use the same scheme.
 */
module Trackers {
  import opened Collections

  // ----- pending changes as values -----

  /**
   * What a key looked like when its first pending event arrived, and what it looks like now. Maps hold one entry or
   * none.
   */
  datatype Change<K, V> = Change(previous: map<K, V>, current: map<K, V>)

  /** An event for `key`, with the entries made from the objects before and after it. */
  datatype Event<K, V> = Event(key: K, previous: map<K, V>, current: map<K, V>)

  predicate LocalEvent<K, V>(ev: Event<K, V>) {
    ev.previous.Keys <= {ev.key} && ev.current.Keys <= {ev.key}
  }

  function PreviousOf<K, V>(items: map<K, Change<K, V>>, ev: Event<K, V>): map<K, V> {
    if ev.key in items then items[ev.key].previous else ev.previous
  }

  /** The pending changes after an event: a pair that cancels out is dropped. */
  function Track<K, V(==)>(items: map<K, Change<K, V>>, ev: Event<K, V>): map<K, Change<K, V>> {
    var change := Change(PreviousOf(items, ev), ev.current);
    if change.previous == change.current then items - {ev.key} else items[ev.key := change]
  }

  /** One change applied to a map: the previous entries go, the current ones come. */
  function ApplyOne<K, V>(m: map<K, V>, c: Change<K, V>): map<K, V> {
    (m - c.previous.Keys) + c.current
  }

  /** Each change touches its own key only, and changes something. */
  predicate Local<K, V(==)>(items: map<K, Change<K, V>>) {
    forall k :: k in items ==>
      items[k].previous.Keys <= {k} && items[k].current.Keys <= {k} && items[k].previous != items[k].current
  }

  /** All changes applied at once. */
  function ApplyAll<K, V>(m: map<K, V>, items: map<K, Change<K, V>>): map<K, V> {
    map k | k in m.Keys + items.Keys && (k in items ==> k in items[k].current)
      :: if k in items then items[k].current[k] else m[k]
  }

  /** The event applied directly to a map. */
  function Direct<K, V>(m: map<K, V>, ev: Event<K, V>): map<K, V> {
    (m - {ev.key}) + ev.current
  }

  /** The entry of a key, as a map of one entry or none. */
  function At<K, V>(m: map<K, V>, k: K): map<K, V> {
    if k in m then map[k := m[k]] else map[]
  }

  /** The map that is to come after one more event: an event that cancels what is pending leaves the map's own entry. */
  function Tracking<K, V(==)>(m: map<K, V>, items: map<K, Change<K, V>>, ev: Event<K, V>): map<K, V> {
    if PreviousOf(items, ev) == ev.current then (ApplyAll(m, items) - {ev.key}) + At(m, ev.key)
    else Direct(ApplyAll(m, items), ev)
  }

  lemma TrackedEntries<K, V>(m: map<K, V>, items: map<K, Change<K, V>>, ev: Event<K, V>)
    requires Local(items) && LocalEvent(ev)
    ensures ApplyAll(m, Track(items, ev)) == Tracking(m, items, ev) && Local(Track(items, ev))
  {
    var change := Change(PreviousOf(items, ev), ev.current);
    if change.previous == change.current {
      WithoutKey(m, items, ev.key);
    } else {
      WithKey(m, items, ev.key, change);
    }
  }

  lemma WithoutKey<K, V>(m: map<K, V>, items: map<K, Change<K, V>>, k: K)
    ensures ApplyAll(m, items - {k}) == (ApplyAll(m, items) - {k}) + At(m, k)
  {
  }

  lemma WithKey<K, V>(m: map<K, V>, items: map<K, Change<K, V>>, k: K, change: Change<K, V>)
    requires change.current.Keys <= {k}
    ensures ApplyAll(m, items[k := change]) == (ApplyAll(m, items) - {k}) + change.current
  {
  }

  // ----- order of application -----

  lemma ApplyOneOfMany<K, V>(m: map<K, V>, items: map<K, Change<K, V>>, k: K)
    requires Local(items) && k in items
    ensures ApplyAll(m, items) == ApplyAll(ApplyOne(m, items[k]), items - {k})
    ensures Local(items - {k})
  {
    var a, b := ApplyAll(m, items), ApplyAll(ApplyOne(m, items[k]), items - {k});
    forall x
      ensures x in a <==> x in b
      ensures x in a && x in b ==> a[x] == b[x]
    {
      if x == k {
        if k !in items[k].current {
          assert items[k].current == map[];
          assert k in items[k].previous;
        }
      }
    }
  }

  function ApplyInOrder<K, V>(m: map<K, V>, items: map<K, Change<K, V>>, order: seq<K>): map<K, V>
    requires forall i :: 0 <= i < |order| ==> order[i] in items
    decreases |order|
  {
    if order == [] then m else ApplyInOrder(ApplyOne(m, items[order[0]]), items, order[1..])
  }

  /** Pending changes may be applied in any order: each is applied once, and the result is the same. */
  lemma {:induction false} OrderIsImmaterial<K, V>(m: map<K, V>, items: map<K, Change<K, V>>, order: seq<K>)
    requires Local(items)
    requires forall i :: 0 <= i < |order| ==> order[i] in items
    requires forall k :: k in items ==> k in order
    requires forall i, j :: 0 <= i < j < |order| ==> order[i] != order[j]
    ensures ApplyInOrder(m, items, order) == ApplyAll(m, items)
    decreases |order|
  {
    if order == [] {
      assert items == map[];
    } else {
      var k := order[0];
      var rest := items - {k};
      ApplyOneOfMany(m, items, k);
      OrderIsImmaterial(ApplyOne(m, items[k]), rest, order[1..]);
      SameItems(ApplyOne(m, items[k]), items, rest, order[1..]);
    }
  }

  lemma {:induction false} SameItems<K, V>(m: map<K, V>, a: map<K, Change<K, V>>, b: map<K, Change<K, V>>,
      order: seq<K>)
    requires forall i :: 0 <= i < |order| ==> order[i] in a && order[i] in b && a[order[i]] == b[order[i]]
    ensures ApplyInOrder(m, a, order) == ApplyInOrder(m, b, order)
    decreases |order|
  {
    if order != [] {
      SameItems(ApplyOne(m, a[order[0]]), a, b, order[1..]);
    }
  }

  // ----- what the tracker preserves, and exactly when -----

  /** Applying the pending changes to `m` gives `live`. */
  ghost predicate Consistent<K(!new), V(!new)>(m: map<K, V>, items: map<K, Change<K, V>>, live: map<K, V>) {
    Local(items) &&
    forall k :: At(live, k) == if k in items then items[k].current else At(m, k)
  }

  lemma ConsistentApplies<K(!new), V(!new)>(m: map<K, V>, items: map<K, Change<K, V>>, live: map<K, V>)
    requires Consistent(m, items, live)
    ensures ApplyAll(m, items) == live
  {
    var a := ApplyAll(m, items);
    forall k
      ensures k in a <==> k in live
      ensures k in a && k in live ==> a[k] == live[k]
    {
      assert k in live <==> k in At(live, k);
      if k in items {
        assert k in live ==> live[k] == At(live, k)[k];
      } else {
        assert k in m <==> k in At(m, k);
        assert k in live ==> live[k] == At(live, k)[k] && m[k] == At(m, k)[k];
      }
    }
  }

  /** If the event cancels the pending pair, the map already holds the current entry. */
  predicate Sound<K, V(==)>(m: map<K, V>, items: map<K, Change<K, V>>, ev: Event<K, V>) {
    PreviousOf(items, ev) == ev.current ==> At(m, ev.key) == ev.current
  }

  lemma DirectAt<K(!new), V(!new)>(live: map<K, V>, ev: Event<K, V>)
    requires LocalEvent(ev)
    ensures forall k :: At(Direct(live, ev), k) == if k == ev.key then ev.current else At(live, k)
  {
  }

  lemma SoundEventIsTracked<K(!new), V(!new)>(
    m: map<K, V>, items: map<K, Change<K, V>>, live: map<K, V>, ev: Event<K, V>)
    requires Consistent(m, items, live) && LocalEvent(ev) && Sound(m, items, ev)
    ensures Consistent(m, Track(items, ev), Direct(live, ev))
    ensures ApplyAll(m, Track(items, ev)) == Direct(live, ev)
  {
    DirectAt(live, ev);
    ConsistentApplies(m, Track(items, ev), Direct(live, ev));
  }

  lemma UnsoundEventIsLost<K(!new), V(!new)>(
    m: map<K, V>, items: map<K, Change<K, V>>, live: map<K, V>, ev: Event<K, V>)
    requires Consistent(m, items, live) && LocalEvent(ev) && !Sound(m, items, ev)
    ensures ApplyAll(m, Track(items, ev)) != Direct(live, ev)
  {
    var a, d := ApplyAll(m, Track(items, ev)), Direct(live, ev);
    assert At(a, ev.key) == At(m, ev.key);
    DirectAt(live, ev);
    assert At(d, ev.key) == ev.current;
  }

  /**
   * An event is tracked without loss exactly when it is sound: then applying the changes later gives what applying the
   * event directly would have given, and otherwise it does not.
   */
  lemma TrackedIffSound<K(!new), V(!new)>(
    m: map<K, V>, items: map<K, Change<K, V>>, live: map<K, V>, ev: Event<K, V>)
    requires Consistent(m, items, live) && LocalEvent(ev)
    ensures Sound(m, items, ev) <==> Consistent(m, Track(items, ev), Direct(live, ev))
    ensures Sound(m, items, ev) <==> ApplyAll(m, Track(items, ev)) == Direct(live, ev)
  {
    if Sound(m, items, ev) {
      SoundEventIsTracked(m, items, live, ev);
    } else {
      UnsoundEventIsLost(m, items, live, ev);
      if Consistent(m, Track(items, ev), Direct(live, ev)) {
        ConsistentApplies(m, Track(items, ev), Direct(live, ev));
      }
    }
  }

  // ----- faithful streams -----

  /** The pending changes remember what the map holds. */
  ghost predicate Remembers<K(!new), V(!new)>(m: map<K, V>, items: map<K, Change<K, V>>) {
    forall k :: k in items ==> items[k].previous == At(m, k)
  }

  datatype Step<K, V> = Deliver(ev: Event<K, V>) | Apply

  /** The map, the pending changes, and the map that direct application would give. */
  datatype Tracked<K, V> = Tracked(m: map<K, V>, items: map<K, Change<K, V>>, live: map<K, V>)

  function Next<K, V(==)>(t: Tracked<K, V>, step: Step<K, V>): Tracked<K, V> {
    match step
    case Deliver(ev) => Tracked(t.m, Track(t.items, ev), Direct(t.live, ev))
    case Apply => Tracked(ApplyAll(t.m, t.items), map[], t.live)
  }

  function Run<K, V(==)>(t: Tracked<K, V>, steps: seq<Step<K, V>>): Tracked<K, V>
    decreases |steps|
  {
    if steps == [] then t else Run(Next(t, steps[0]), steps[1..])
  }

  /** Each event's previous entry is the last one delivered for its key. */
  ghost predicate Faithful<K(!new), V(!new)>(live: map<K, V>, steps: seq<Step<K, V>>)
    decreases |steps|
  {
    steps == [] ||
    match steps[0]
    case Deliver(ev) => LocalEvent(ev) && ev.previous == At(live, ev.key) && Faithful(Direct(live, ev), steps[1..])
    case Apply => Faithful(live, steps[1..])
  }

  ghost predicate InStep<K(!new), V(!new)>(t: Tracked<K, V>) {
    Consistent(t.m, t.items, t.live) && Remembers(t.m, t.items)
  }

  lemma FaithfulEventStaysInStep<K(!new), V(!new)>(t: Tracked<K, V>, ev: Event<K, V>)
    requires InStep(t) && LocalEvent(ev) && ev.previous == At(t.live, ev.key)
    ensures InStep(Next(t, Deliver(ev)))
  {
    assert PreviousOf(t.items, ev) == At(t.m, ev.key);
    TrackedIffSound(t.m, t.items, t.live, ev);
  }

  /**
   * For every faithful stream of events and every interleaving with applications, the map with the pending changes
   * applied is what applying all events directly gives.
   */
  lemma {:induction false} TrackingIsDirectApplication<K(!new), V(!new)>(t: Tracked<K, V>, steps: seq<Step<K, V>>)
    requires InStep(t) && Faithful(t.live, steps)
    ensures var r := Run(t, steps); InStep(r) && ApplyAll(r.m, r.items) == r.live
    decreases |steps|
  {
    if steps == [] {
      ConsistentApplies(t.m, t.items, t.live);
    } else {
      match steps[0] {
        case Deliver(ev) => FaithfulEventStaysInStep(t, ev);
        case Apply => ConsistentApplies(t.m, t.items, t.live);
      }
      TrackingIsDirectApplication(Next(t, steps[0]), steps[1..]);
    }
  }
}
