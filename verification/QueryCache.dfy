/** The query cache: a map for lookups and a ring for evictions, proved against the value. */
module QueryCache {
  import opened Clock
  import A = CacheAnswers

  class PreparedQuery {
    const key: Key
    const value: Prepared
    var referenced: bool

    constructor (key: Key, value: Prepared)
      ensures this.key == key && this.value == value && !referenced
    {
      this.key, this.value, referenced := key, value, false;
    }
  }

  /** The map and the ring hold the same entries, each under its key. */
  ghost predicate Linked(entries: map<Key, PreparedQuery>, ring: seq<PreparedQuery>) {
    && (forall i :: 0 <= i < |ring| ==> ring[i].key in entries && entries[ring[i].key] == ring[i])
    && (forall k :: k in entries ==> entries[k] in ring && entries[k].key == k)
    && (forall i, j :: 0 <= i < j < |ring| ==> ring[i].key != ring[j].key)
  }

  lemma LinkedReplace(entries: map<Key, PreparedQuery>, ring: seq<PreparedQuery>, h: nat, pq: PreparedQuery)
    requires Linked(entries, ring) && h < |ring| && pq.key !in entries
    ensures Linked((entries - {ring[h].key})[pq.key := pq], ring[h := pq])
  {
    var entries', ring' := (entries - {ring[h].key})[pq.key := pq], ring[h := pq];
    forall k | k in entries'
      ensures entries'[k] in ring' && entries'[k].key == k
    {
      if k == pq.key {
        assert ring'[h] == pq;
      } else {
        var i :| 0 <= i < |ring| && ring[i] == entries[k];
        assert ring'[i] == ring[i];
      }
    }
  }

  lemma LinkedAppend(entries: map<Key, PreparedQuery>, ring: seq<PreparedQuery>, pq: PreparedQuery)
    requires Linked(entries, ring) && pq.key !in entries
    ensures Linked(entries[pq.key := pq], ring + [pq])
  {
    assert (ring + [pq])[|ring|] == pq;
  }

  /** In a full cache the new slot goes where the hand stopped. */
  lemma PlacedFull(c: Cache, slot: Slot, swept: seq<Slot>, at: nat)
    requires Sound(c) && c.capacity > 0 && |c.ring| == c.capacity == |swept| && at < |swept|
    requires (swept, at) == Clock.Sweep(c.ring, c.hand, 2 * c.capacity)
    ensures Placed(c, slot) == c.(ring := swept[at := slot], hand := (at + 1) % c.capacity)
  {
  }

  class QueryCache {
    const capacity: nat
    var entries: map<Key, PreparedQuery>
    var ring: seq<PreparedQuery>
    var hand: nat
    var generation: nat

    /** The ring as a value. */
    ghost function View(): (c: Cache)
      reads this, ring
    {
      Cache(capacity, Slots(), hand, generation)
    }

    ghost function Slots(): (s: seq<Slot>)
      reads this, ring
      ensures |s| == |ring| && forall i :: 0 <= i < |s| ==> s[i] == Slot(ring[i].key, ring[i].value, ring[i].referenced)
    {
      seq(|ring|, i requires 0 <= i < |ring| reads this, ring => Slot(ring[i].key, ring[i].value, ring[i].referenced))
    }

    ghost predicate Valid()
      reads this, ring
    {
      Linked(entries, ring) && Sound(View())
    }

    constructor (capacity: nat)
      ensures Valid() && View() == Cache(capacity, [], 0, 0)
    {
      this.capacity := capacity;
      entries, ring, hand, generation := map[], [], 0, 0;
    }

    lemma Find(key: Key)
      requires Valid()
      ensures key in entries <==> Holds(View().ring, key)
      ensures key in entries ==>
        var i := IndexOf(View().ring, key);
        && i < |ring| && entries[key] == ring[i]
        && View().ring[i] == Slot(key, entries[key].value, entries[key].referenced)
    {
      if key in entries {
        var i :| 0 <= i < |ring| && ring[i] == entries[key];
        assert View().ring[i].key == key;
      }
    }

    method Clear()
      requires Valid()
      modifies this
      ensures Valid() && ring == [] && View() == Cleared(old(View()))
    {
      generation := generation + 1;
      entries := map[];
      ring := [];
      hand := 0;
    }

    /** Marking or unmarking one entry changes one slot. */
    method Mark(i: nat, referenced: bool)
      requires Valid() && i < |ring|
      modifies ring[i]
      ensures Valid() && View() == old(View()).(ring := old(Slots())[i := old(Slots())[i].(marked := referenced)])
    {
      ring[i].referenced := referenced;
      assert Slots() == old(Slots())[i := old(Slots())[i].(marked := referenced)];
    }

    /** The hand clears the entry under it and moves on. */
    method Pass()
      requires Valid() && |ring| == capacity > 0
      modifies this`hand, ring
      ensures Valid() && hand == (old(hand) + 1) % capacity
      ensures Slots() == old(Slots())[old(hand) := old(Slots())[old(hand)].(marked := false)]
    {
      Mark(hand, false);
      ghost var slots := Slots();
      hand := (hand + 1) % capacity;
      assert Slots() == slots;
    }

    method Sweep()
      requires Valid() && |ring| == capacity > 0
      modifies this`hand, ring
      ensures Valid() && hand < |ring|
      ensures (Slots(), hand) == Clock.Sweep(old(Slots()), old(hand), 2 * capacity)
    {
      var steps: nat := 2 * capacity;
      ghost var slots, start := Slots(), hand;
      while steps > 0 && ring[hand].referenced
        invariant Valid() && |ring| == capacity
        invariant Clock.Sweep(Slots(), hand, steps) == Clock.Sweep(slots, start, 2 * capacity)
        decreases steps
      {
        ghost var s, h := Slots(), hand;
        assert s[h].marked;
        Pass();
        steps := steps - 1;
        SweepUnfolds(s, h, steps);
      }
    }

    /** A new entry takes the place of the one under the hand. */
    method Replace(pq: PreparedQuery)
      requires Valid() && |ring| == capacity > 0 && hand < |ring| && pq.key !in entries
      modifies this
      ensures Valid()
      ensures View() == old(View()).(ring := old(Slots())[old(hand) := Slot(pq.key, pq.value, pq.referenced)],
                                     hand := (old(hand) + 1) % capacity)
    {
      LinkedReplace(entries, ring, hand, pq);
      entries := entries - {ring[hand].key};
      ring := ring[hand := pq];
      hand := (hand + 1) % capacity;
      entries := entries[pq.key := pq];
      assert Slots() == old(Slots())[old(hand) := Slot(pq.key, pq.value, pq.referenced)];
    }

    method Append(pq: PreparedQuery)
      requires Valid() && |ring| < capacity && pq.key !in entries
      modifies this
      ensures Valid()
      ensures View() == old(View()).(ring := old(Slots()) + [Slot(pq.key, pq.value, pq.referenced)],
                                     hand := if |ring| < capacity then old(hand) else 0)
    {
      LinkedAppend(entries, ring, pq);
      ring := ring + [pq];
      entries := entries[pq.key := pq];
      assert Slots() == old(Slots()) + [Slot(pq.key, pq.value, pq.referenced)];
    }

    method Place(pq: PreparedQuery)
      requires Valid() && capacity > 0 && pq !in ring && !pq.referenced && pq.key !in entries
      modifies this, ring
      ensures Valid() && View() == Placed(old(View()), Slot(pq.key, pq.value, false))
    {
      if |ring| < capacity {
        Append(pq);
      } else {
        ghost var before := View();
        Sweep();
        ghost var swept, at := Slots(), hand;
        assert View() == before.(ring := swept, hand := at);
        Replace(pq);
        PlacedFull(before, Slot(pq.key, pq.value, false), swept, at);
      }
    }

    method Insert(pq: PreparedQuery, generation: nat) returns (r: PreparedQuery)
      requires Valid() && capacity > 0 && pq !in ring && !pq.referenced
      modifies this, ring
      ensures Valid()
      ensures (View(), r.value) == Inserted(old(View()), pq.key, pq.value, generation) && r.key == pq.key
    {
      Find(pq.key);
      if this.generation != generation {
        return pq;
      }
      if pq.key in entries {
        return entries[pq.key];
      }
      Place(pq);
      r := pq;
    }

    /** A hit marks its entry, if it is not marked already. */
    method Touch(pq: PreparedQuery, ghost i: nat)
      requires Valid() && i < |ring| && ring[i] == pq
      modifies pq`referenced
      ensures Valid() && View() == old(View()).(ring := old(Slots())[i := old(Slots())[i].(marked := true)])
    {
      if !pq.referenced {
        pq.referenced := true;
      }
      assert Slots() == old(Slots())[i := old(Slots())[i].(marked := true)];
    }

    /** In a cache where every entry is what f gives for its key, the answer is what f gives, and it stays such a
        cache. */
    method Lookup(key: Key, computed: Prepared) returns (r: PreparedQuery)
      requires Valid()
      modifies this, ring
      ensures Valid()
      ensures (View(), r.value) == LookedUp(old(View()), key, computed) && r.key == key
      ensures forall f :: old(A.Honest(View(), f)) && f(key) == computed ==> r.value == computed && A.Honest(View(), f)
    {
      ghost var before := View();
      forall f: Key -> Prepared | A.Honest(before, f) && f(key) == computed
        ensures LookedUp(before, key, computed).1 == computed && A.Honest(LookedUp(before, key, computed).0, f)
      {
        A.LookupAnswers(before, key, f, before.generation);
      }
      if capacity == 0 {
        r := new PreparedQuery(key, computed);
        return;
      }
      Find(key);
      if key in entries {
        r := entries[key];
        Touch(r, IndexOf(Slots(), key));
        return;
      }
      var generation := this.generation;
      var pq := new PreparedQuery(key, computed);
      r := Insert(pq, generation);
    }
  }
}
