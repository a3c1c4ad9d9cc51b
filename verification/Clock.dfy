/** The query cache as a value: a ring of entries and a CLOCK hand. */
module Clock {
  import opened Lexer

  /** The same text unpacks differently per driver. */
  datatype Key = Key(driver: Driver, query: string)
  datatype Prepared = Prepared(text: string, failed: bool)

  datatype Slot = Slot(key: Key, value: Prepared, marked: bool)
  datatype Cache = Cache(capacity: nat, ring: seq<Slot>, hand: nat, generation: nat)

  /** Keys are distinct, at most capacity many, and the hand points into a full ring. */
  ghost predicate Sound(c: Cache) {
    && |c.ring| <= c.capacity
    && (if |c.ring| < c.capacity || c.capacity == 0 then c.hand == 0 else c.hand < c.capacity)
    && Distinct(c.ring)
  }

  ghost predicate Distinct(ring: seq<Slot>) {
    forall i, j :: 0 <= i < j < |ring| ==> ring[i].key != ring[j].key
  }

  ghost predicate Holds(ring: seq<Slot>, key: Key) {
    exists i :: 0 <= i < |ring| && ring[i].key == key
  }

  function IndexOf(ring: seq<Slot>, key: Key): (i: nat)
    ensures i <= |ring| && (i < |ring| ==> ring[i].key == key) && (i < |ring| <==> Holds(ring, key))
  {
    if ring == [] then 0
    else if ring[0].key == key then 0
    else
      var i := IndexOf(ring[1..], key);
      assert forall j :: 0 < j < |ring| ==> ring[j] == ring[1..][j - 1];
      assert Holds(ring[1..], key) <==> Holds(ring, key) by {
        if Holds(ring[1..], key) {
          var j :| 0 <= j < |ring| - 1 && ring[1..][j].key == key;
          assert ring[j + 1].key == key;
        }
      }
      i + 1
  }

  // ----- The sweep -----

  /** The hand passes over marked slots, clearing them, for a bounded number of steps. */
  function Sweep(ring: seq<Slot>, hand: nat, steps: nat): (r: (seq<Slot>, nat))
    requires hand < |ring|
    ensures |r.0| == |ring| && r.1 < |ring|
    decreases steps
  {
    if steps == 0 || !ring[hand].marked then (ring, hand)
    else Sweep(ring[hand := ring[hand].(marked := false)], (hand + 1) % |ring|, steps - 1)
  }

  lemma SweepUnfolds(ring: seq<Slot>, hand: nat, steps: nat)
    requires hand < |ring| && ring[hand].marked
    ensures Sweep(ring, hand, steps + 1)
         == Sweep(ring[hand := ring[hand].(marked := false)], (hand + 1) % |ring|, steps)
  {
  }

  function Inserted(c: Cache, key: Key, value: Prepared, generation: nat): (Cache, Prepared)
    requires Sound(c) && c.capacity > 0
  {
    var i := IndexOf(c.ring, key);
    if generation != c.generation then (c, value)
    else if i < |c.ring| then (c, c.ring[i].value)
    else (Placed(c, Slot(key, value, false)), value)
  }

  function Placed(c: Cache, slot: Slot): Cache
    requires Sound(c) && c.capacity > 0
  {
    if |c.ring| < c.capacity then c.(ring := c.ring + [slot])
    else
      var (ring, hand) := Sweep(c.ring, c.hand, 2 * c.capacity);
      c.(ring := ring[hand := slot], hand := (hand + 1) % c.capacity)
  }

  /** A lookup: a hit marks its slot; a miss inserts what the caller computes. */
  function LookedUp(c: Cache, key: Key, computed: Prepared): (Cache, Prepared)
    requires Sound(c)
  {
    var i := IndexOf(c.ring, key);
    if c.capacity == 0 then (c, computed)
    else if i < |c.ring| then (c.(ring := c.ring[i := c.ring[i].(marked := true)]), c.ring[i].value)
    else Inserted(c, key, computed, c.generation)
  }

  function Cleared(c: Cache): Cache {
    c.(ring := [], hand := 0, generation := c.generation + 1)
  }

  // ----- Which slot the hand stops at -----

  /** The slot e steps ahead of the hand, and how far ahead a slot is. */
  function Ahead(hand: nat, e: nat, n: nat): (i: nat)
    requires hand < n && e <= n
    ensures i < n
  {
    if hand + e < n then hand + e else hand + e - n
  }

  function Distance(hand: nat, i: nat, n: nat): (e: nat)
    requires hand < n && i < n
    ensures e < n && Ahead(hand, e, n) == i
  {
    if i >= hand then i - hand else i + n - hand
  }

  /** The slots before the d-th from the hand lose their marks. */
  function Unmarked(ring: seq<Slot>, hand: nat, d: nat): (r: seq<Slot>)
    requires hand < |ring|
    ensures |r| == |ring|
    ensures forall i :: 0 <= i < |ring| ==>
      r[i] == if Distance(hand, i, |ring|) < d then ring[i].(marked := false) else ring[i]
  {
    seq(|ring|, i requires 0 <= i < |ring| =>
      if Distance(hand, i, |ring|) < d then ring[i].(marked := false) else ring[i])
  }

  /** How many marked slots follow each other from the hand on, within one turn. */
  function MarkedRun(ring: seq<Slot>, hand: nat, d: nat): (r: nat)
    requires hand < |ring| && d <= |ring|
    ensures d <= r <= |ring|
    ensures forall e :: d <= e < r ==> ring[Ahead(hand, e, |ring|)].marked
    ensures r < |ring| ==> !ring[Ahead(hand, r, |ring|)].marked
    decreases |ring| - d
  {
    if d == |ring| || !ring[Ahead(hand, d, |ring|)].marked then d else MarkedRun(ring, hand, d + 1)
  }

  lemma {:induction false} SweepTurn(ring: seq<Slot>, hand: nat, d: nat, steps: nat)
    requires hand < |ring| && d <= |ring| && d <= steps
    requires forall e :: 0 <= e < d ==> ring[Ahead(hand, e, |ring|)].marked
    ensures Sweep(ring, hand, steps) == Sweep(Unmarked(ring, hand, d), Ahead(hand, d, |ring|), steps - d)
  {
    if d == 0 {
      assert Unmarked(ring, hand, 0) == ring;
    } else {
      SweepTurn(ring, hand, d - 1, steps);
      SweepStep(ring, hand, d - 1, steps - (d - 1));
    }
  }

  lemma SweepStep(ring: seq<Slot>, hand: nat, d: nat, steps: nat)
    requires hand < |ring| && d < |ring| && steps > 0 && ring[Ahead(hand, d, |ring|)].marked
    ensures Sweep(Unmarked(ring, hand, d), Ahead(hand, d, |ring|), steps)
         == Sweep(Unmarked(ring, hand, d + 1), Ahead(hand, d + 1, |ring|), steps - 1)
  {
    var r, at := Unmarked(ring, hand, d), Ahead(hand, d, |ring|);
    assert Distance(hand, at, |ring|) == d;
    assert r[at := r[at].(marked := false)] == Unmarked(ring, hand, d + 1);
    AheadNext(hand, d, |ring|);
  }

  lemma AheadNext(hand: nat, d: nat, n: nat)
    requires hand < n && d < n
    ensures (Ahead(hand, d, n) + 1) % n == Ahead(hand, d + 1, n)
  {
  }

  /** The sweep stops at the first slot from the hand that is not marked; when all are, one full turn clears them and
      the slot it started from goes. Two turns are never used up. */
  lemma Victim(ring: seq<Slot>, hand: nat)
    requires hand < |ring|
    ensures var d := MarkedRun(ring, hand, 0);
      Sweep(ring, hand, 2 * |ring|) == (Unmarked(ring, hand, d), Ahead(hand, d, |ring|))
  {
    SweepTurn(ring, hand, MarkedRun(ring, hand, 0), 2 * |ring|);
  }

  // ----- Structure -----

  lemma InsertSound(c: Cache, key: Key, value: Prepared, generation: nat)
    requires Sound(c) && c.capacity > 0
    ensures Sound(Inserted(c, key, value, generation).0)
  {
    if !Holds(c.ring, key) && |c.ring| == c.capacity {
      Victim(c.ring, c.hand);
    }
  }

  /** Every operation keeps the ring's keys distinct and within capacity. */
  lemma OperationsSound(c: Cache, key: Key, value: Prepared)
    requires Sound(c)
    ensures Sound(LookedUp(c, key, value).0) && Sound(Cleared(c))
  {
    if c.capacity > 0 {
      InsertSound(c, key, value, c.generation);
    }
  }

  // ----- The working set stays -----

  /** Whether a lookup makes an entry leave. */
  ghost predicate Evicts(c: Cache, key: Key) {
    c.capacity > 0 && |c.ring| == c.capacity && !Holds(c.ring, key)
  }

  ghost predicate MarksOnly(c: Cache, hot: set<Key>) {
    forall i :: 0 <= i < |c.ring| && c.ring[i].marked ==> c.ring[i].key in hot
  }

  ghost predicate AllMarked(c: Cache, keys: set<Key>) {
    forall i :: 0 <= i < |c.ring| && c.ring[i].key in keys ==> c.ring[i].marked
  }

  ghost predicate HoldsAll(c: Cache, keys: set<Key>) {
    forall k :: k in keys ==> Holds(c.ring, k)
  }

  /** A run of lookups: those that hit are of hot keys, and between two evictions every hot key is hit. since holds the
      keys hit since the last eviction. */
  ghost predicate Regime(c: Cache, hot: set<Key>, since: set<Key>, run: seq<(Key, Prepared)>)
    requires Sound(c)
    decreases |run|
  {
    run == [] ||
    (var (key, value) := run[0];
     OperationsSound(c, key, value);
     && (Holds(c.ring, key) ==> key in hot)
     && (Evicts(c, key) ==> hot <= since)
     && Regime(LookedUp(c, key, value).0, hot, Since(c, since, key), run[1..]))
  }

  ghost function Since(c: Cache, since: set<Key>, key: Key): set<Key> {
    if Evicts(c, key) then {} else if Holds(c.ring, key) then since + {key} else since
  }

  ghost function After(c: Cache, run: seq<(Key, Prepared)>): (r: Cache)
    requires Sound(c)
    ensures Sound(r)
    decreases |run|
  {
    if run == [] then c
    else
      OperationsSound(c, run[0].0, run[0].1);
      After(LookedUp(c, run[0].0, run[0].1).0, run[1..])
  }

  /** Distinct keys from a set are at most as many. */
  lemma {:induction false} DistinctFit(ring: seq<Slot>, keys: set<Key>)
    requires Distinct(ring) && forall i :: 0 <= i < |ring| ==> ring[i].key in keys
    ensures |ring| <= |keys|
  {
    if ring != [] {
      var last := |ring| - 1;
      DistinctFit(ring[..last], keys - {ring[last].key});
    }
  }

  /** A full ring of more slots than hot keys has a slot that is not marked. */
  lemma SomeUnmarked(c: Cache, hot: set<Key>) returns (i: nat)
    requires Sound(c) && MarksOnly(c, hot) && |hot| < |c.ring|
    ensures i < |c.ring| && !c.ring[i].marked
  {
    if forall i :: 0 <= i < |c.ring| ==> c.ring[i].marked {
      DistinctFit(c.ring, hot);
      assert false;
    }
    i :| i < |c.ring| && !c.ring[i].marked;
  }

  lemma {:induction false} RunStops(ring: seq<Slot>, hand: nat, d: nat, e: nat)
    requires hand < |ring| && d <= e < |ring| && !ring[Ahead(hand, e, |ring|)].marked
    ensures MarkedRun(ring, hand, d) <= e
    decreases e - d
  {
    if d < e && ring[Ahead(hand, d, |ring|)].marked {
      RunStops(ring, hand, d + 1, e);
    }
  }

  /** An eviction takes an unmarked slot if there is one, and leaves the others but for their marks. */
  lemma EvictsUnmarked(c: Cache, slot: Slot, some: nat)
    requires Sound(c) && c.capacity > 0 && |c.ring| == c.capacity && some < |c.ring| && !c.ring[some].marked
    ensures var hand := Sweep(c.ring, c.hand, 2 * c.capacity).1;
      && !c.ring[hand].marked
      && |Placed(c, slot).ring| == |c.ring|
      && forall i :: 0 <= i < |c.ring| ==>
           if i == hand then Placed(c, slot).ring[i] == slot
           else Placed(c, slot).ring[i].key == c.ring[i].key && (Placed(c, slot).ring[i].marked ==> c.ring[i].marked)
  {
    Victim(c.ring, c.hand);
    var d := MarkedRun(c.ring, c.hand, 0);
    var e := Distance(c.hand, some, |c.ring|);
    RunStops(c.ring, c.hand, 0, e);
  }

  /** What a lookup keeps: the hot keys are cached, those hit since the last eviction are marked, and no other is. */
  ghost predicate Warm(c: Cache, hot: set<Key>, since: set<Key>) {
    && Sound(c) && |hot| < c.capacity
    && HoldsAll(c, hot) && MarksOnly(c, hot) && AllMarked(c, since) && since <= hot
  }

  lemma HitKeepsWarm(c: Cache, hot: set<Key>, since: set<Key>, key: Key, value: Prepared)
    requires Warm(c, hot, since) && Holds(c.ring, key) && key in hot
    ensures Sound(LookedUp(c, key, value).0) && Warm(LookedUp(c, key, value).0, hot, since + {key})
  {
    var i, next := IndexOf(c.ring, key), LookedUp(c, key, value).0;
    OperationsSound(c, key, value);
    forall k | k in hot
      ensures Holds(next.ring, k)
    {
      var j :| 0 <= j < |c.ring| && c.ring[j].key == k;
      assert next.ring[j].key == k;
    }
  }

  lemma FillKeepsWarm(c: Cache, hot: set<Key>, since: set<Key>, key: Key, value: Prepared)
    requires Warm(c, hot, since) && !Holds(c.ring, key) && |c.ring| < c.capacity
    ensures Warm(LookedUp(c, key, value).0, hot, since)
  {
    var next := LookedUp(c, key, value).0;
    OperationsSound(c, key, value);
    forall k | k in hot
      ensures Holds(next.ring, k)
    {
      var j :| 0 <= j < |c.ring| && c.ring[j].key == k;
      assert next.ring[j].key == k;
    }
    assert key !in since;
  }

  lemma EvictionKeepsWarm(c: Cache, hot: set<Key>, key: Key, value: Prepared)
    requires Warm(c, hot, hot) && Evicts(c, key)
    ensures Warm(LookedUp(c, key, value).0, hot, {})
  {
    var slot := Slot(key, value, false);
    var next := Placed(c, slot);
    assert LookedUp(c, key, value).0 == next;
    OperationsSound(c, key, value);
    var some := SomeUnmarked(c, hot);
    EvictsUnmarked(c, slot, some);
    forall k | k in hot
      ensures Holds(next.ring, k)
    {
      var j :| 0 <= j < |c.ring| && c.ring[j].key == k;
      assert next.ring[j].key == k;
    }
  }

  /** However many one-off statements pass through, a working set smaller than the cache that is hit between evictions
      never leaves it. */
  lemma {:induction false} WorkingSetStays(c: Cache, hot: set<Key>, since: set<Key>, run: seq<(Key, Prepared)>)
    requires Warm(c, hot, since) && Regime(c, hot, since, run)
    ensures HoldsAll(After(c, run), hot)
    decreases |run|
  {
    if run != [] {
      var (key, value) := run[0];
      if Holds(c.ring, key) {
        HitKeepsWarm(c, hot, since, key, value);
      } else if |c.ring| < c.capacity {
        FillKeepsWarm(c, hot, since, key, value);
      } else {
        assert since == hot;
        EvictionKeepsWarm(c, hot, key, value);
      }
      WorkingSetStays(LookedUp(c, key, value).0, hot, Since(c, since, key), run[1..]);
    }
  }
}
