/** What the query cache answers: what computing the statement anew would give, with the registry of the moment; and the
    ring as the map of entries that the interleaved machine has. */
module CacheAnswers {
  import opened Errors
  import opened Clock
  import opened Expansion
  import B = Balance
  import CC = CacheCoherence

  // ----- Answers -----

  /** Every slot holds what f gives for its key. */
  ghost predicate Honest(c: Cache, f: Key -> Prepared) {
    forall i :: 0 <= i < |c.ring| ==> c.ring[i].value == f(c.ring[i].key)
  }

  lemma {:induction false} SweepKeeps(ring: seq<Slot>, hand: nat, steps: nat)
    requires hand < |ring|
    ensures var swept := Sweep(ring, hand, steps).0;
      forall i :: 0 <= i < |ring| ==> swept[i] == ring[i].(marked := swept[i].marked)
    decreases steps
  {
    if steps > 0 && ring[hand].marked {
      SweepKeeps(ring[hand := ring[hand].(marked := false)], (hand + 1) % |ring|, steps - 1);
    }
  }

  lemma PlacedHonest(c: Cache, slot: Slot, f: Key -> Prepared)
    requires Sound(c) && c.capacity > 0 && Honest(c, f) && slot.value == f(slot.key)
    ensures Honest(Placed(c, slot), f)
  {
    if |c.ring| == c.capacity {
      SweepKeeps(c.ring, c.hand, 2 * c.capacity);
    }
  }

  /** A lookup answers what computing the statement gives, hit or miss, and leaves the cache so; inserting for the
      current generation or another, and clearing, do too. */
  lemma LookupAnswers(c: Cache, key: Key, f: Key -> Prepared, generation: nat)
    requires Sound(c) && Honest(c, f)
    ensures LookedUp(c, key, f(key)).1 == f(key) && Honest(LookedUp(c, key, f(key)).0, f)
    ensures c.capacity > 0 ==>
      Inserted(c, key, f(key), generation).1 == f(key) && Honest(Inserted(c, key, f(key), generation).0, f)
  {
    if c.capacity > 0 {
      PlacedHonest(c, Slot(key, f(key), false), f);
    }
  }

  // ----- Runs of lookups and registrations -----

  /** A statement is looked up, or a registration changes what statements unpack to and clears the cache. */
  datatype Call = Ask(key: Key) | Register(f: Key -> Prepared)

  function Answers(c: Cache, f: Key -> Prepared, calls: seq<Call>): seq<Prepared>
    requires Sound(c)
    decreases |calls|
  {
    if calls == [] then []
    else
      match calls[0]
      case Ask(key) =>
        OperationsSound(c, key, f(key));
        var (c1, r) := LookedUp(c, key, f(key));
        [r] + Answers(c1, f, calls[1..])
      case Register(g) =>
        OperationsSound(c, Key(Lexer.Unknown, ""), Prepared("", false));
        Answers(Cleared(c), g, calls[1..])
  }

  /** The same calls without a cache. */
  function Uncached(f: Key -> Prepared, calls: seq<Call>): seq<Prepared>
    decreases |calls|
  {
    if calls == [] then []
    else
      match calls[0]
      case Ask(key) => [f(key)] + Uncached(f, calls[1..])
      case Register(g) => Uncached(g, calls[1..])
  }

  /** Whatever the capacity and whatever is asked, the cache cannot be noticed. */
  lemma {:induction false} Transparent(c: Cache, f: Key -> Prepared, calls: seq<Call>)
    requires Sound(c) && Honest(c, f)
    ensures Answers(c, f, calls) == Uncached(f, calls)
    decreases |calls|
  {
    if calls != [] {
      match calls[0] {
        case Ask(key) =>
          OperationsSound(c, key, f(key));
          LookupAnswers(c, key, f, c.generation);
          Transparent(LookedUp(c, key, f(key)).0, f, calls[1..]);
        case Register(g) => Transparent(Cleared(c), g, calls[1..]);
      }
    }
  }

  /** What a statement is prepared to with a registry: its unpacked text, or itself and a failure. read is how a text
      reads as a tree. */
  function Preparing(reg: Registry, read: string -> Sql): Key -> Prepared {
    (key: Key) =>
      var u := CC.Recompute(reg, CC.Key(key.driver, read(key.query)));
      if u.Some? then Prepared(B.Render(u.value), false) else Prepared(key.query, true)
  }

  /** A lookup in a cache filled under a registry answers what unpacking with that registry gives. */
  lemma LookupUnpacks(c: Cache, key: Key, reg: Registry, read: string -> Sql)
    requires Sound(c) && Honest(c, Preparing(reg, read))
    ensures var (c', r) := LookedUp(c, key, Preparing(reg, read)(key));
      && Honest(c', Preparing(reg, read))
      && match CC.Recompute(reg, CC.Key(key.driver, read(key.query)))
         case Some(u) => r == Prepared(B.Render(u), false)
         case None => r == Prepared(key.query, true)
  {
    LookupAnswers(c, key, Preparing(reg, read), c.generation);
  }

  // ----- The ring as a map of entries -----

  ghost function Keys(c: Cache): set<Key> {
    set i | 0 <= i < |c.ring| :: c.ring[i].key
  }

  ghost function Entries(c: Cache): map<Key, Prepared> {
    map k | k in Keys(c) :: c.ring[IndexOf(c.ring, k)].value
  }

  lemma EntriesAre(c: Cache, m: map<Key, Prepared>)
    requires Sound(c) && forall k :: k in m ==> Holds(c.ring, k)
    requires forall i :: 0 <= i < |c.ring| ==> c.ring[i].key in m && m[c.ring[i].key] == c.ring[i].value
    ensures Entries(c) == m
  {
    forall k | k in m
      ensures k in Entries(c) && Entries(c)[k] == m[k]
    {
      assert Holds(c.ring, k);
    }
  }

  lemma EntryAt(c: Cache, i: nat)
    requires Sound(c) && i < |c.ring|
    ensures c.ring[i].key in Entries(c) && Entries(c)[c.ring[i].key] == c.ring[i].value
  {
    assert Holds(c.ring, c.ring[i].key);
  }

  lemma AllEntries(c: Cache)
    requires Sound(c)
    ensures forall i :: 0 <= i < |c.ring| ==>
      c.ring[i].key in Entries(c) && Entries(c)[c.ring[i].key] == c.ring[i].value
    ensures forall k :: k in Entries(c) <==> Holds(c.ring, k)
  {
    forall i | 0 <= i < |c.ring|
      ensures c.ring[i].key in Entries(c) && Entries(c)[c.ring[i].key] == c.ring[i].value
    {
      EntryAt(c, i);
    }
  }

  /** Marks are no part of the entries. */
  lemma SameEntries(c: Cache, c': Cache)
    requires Sound(c) && Sound(c') && |c'.ring| == |c.ring|
    requires forall i :: 0 <= i < |c.ring| ==> c'.ring[i].key == c.ring[i].key && c'.ring[i].value == c.ring[i].value
    ensures Entries(c') == Entries(c)
  {
    AllEntries(c);
    forall k | k in Entries(c)
      ensures Holds(c'.ring, k)
    {
      var j :| 0 <= j < |c.ring| && c.ring[j].key == k;
      assert c'.ring[j].key == k;
    }
    EntriesAre(c', Entries(c));
  }

  lemma MarkedEntries(c: Cache, i: nat)
    requires Sound(c) && i < |c.ring|
    ensures Entries(c.(ring := c.ring[i := c.ring[i].(marked := true)])) == Entries(c)
  {
    SameEntries(c, c.(ring := c.ring[i := c.ring[i].(marked := true)]));
  }

  /** A slot more. */
  lemma AppendedEntries(c: Cache, slot: Slot)
    requires Sound(c) && !Holds(c.ring, slot.key) && Sound(c.(ring := c.ring + [slot]))
    ensures Entries(c.(ring := c.ring + [slot])) == Entries(c)[slot.key := slot.value]
  {
    var c' := c.(ring := c.ring + [slot]);
    AllEntries(c);
    assert c'.ring[|c.ring|] == slot;
    forall k | k in Entries(c)
      ensures Holds(c'.ring, k)
    {
      var j :| 0 <= j < |c.ring| && c.ring[j].key == k;
      assert c'.ring[j].key == k;
    }
    EntriesAre(c', Entries(c)[slot.key := slot.value]);
  }

  /** Another slot in one's place, marks aside. */
  lemma ReplacedEntries(c: Cache, c': Cache, at: nat, slot: Slot)
    requires Sound(c) && Sound(c') && !Holds(c.ring, slot.key) && at < |c.ring| == |c'.ring| && c'.ring[at] == slot
    requires forall i :: 0 <= i < |c.ring| && i != at ==>
      c'.ring[i].key == c.ring[i].key && c'.ring[i].value == c.ring[i].value
    ensures Entries(c') == (Entries(c) - {c.ring[at].key})[slot.key := slot.value]
  {
    AllEntries(c);
    var m := (Entries(c) - {c.ring[at].key})[slot.key := slot.value];
    forall k | k in m
      ensures Holds(c'.ring, k)
    {
      if k == slot.key {
        assert c'.ring[at].key == k;
      } else {
        var j :| 0 <= j < |c.ring| && c.ring[j].key == k;
        assert c'.ring[j].key == k;
      }
    }
    forall i | 0 <= i < |c.ring|
      ensures c'.ring[i].key in m && m[c'.ring[i].key] == c'.ring[i].value
    {
      if i != at {
        assert c.ring[i].key != c.ring[at].key && Holds(c.ring, c.ring[i].key);
      }
    }
    EntriesAre(c', m);
  }

  /** Storing an entry drops one other at most. */
  lemma PlacedEntries(c: Cache, slot: Slot) returns (victims: set<Key>)
    requires Sound(c) && c.capacity > 0 && !Holds(c.ring, slot.key) && Sound(Placed(c, slot))
    ensures |victims| <= 1 && Entries(Placed(c, slot)) == (Entries(c) - victims)[slot.key := slot.value]
  {
    if |c.ring| < c.capacity {
      victims := {};
      AppendedEntries(c, slot);
      assert Entries(c) - {} == Entries(c);
    } else {
      var at := Sweep(c.ring, c.hand, 2 * c.capacity).1;
      victims := {c.ring[at].key};
      SweepKeeps(c.ring, c.hand, 2 * c.capacity);
      ReplacedEntries(c, Placed(c, slot), at, slot);
    }
  }

  /** A lookup is what the interleaved machine does in its steps: it loads an entry, or evicts and stores. */
  lemma LookupRefines(c: Cache, key: Key, value: Prepared) returns (victims: set<Key>)
    requires Sound(c) && c.capacity > 0
    ensures |victims| <= 1
    ensures var (c', r) := LookedUp(c, key, value);
      if key in Entries(c) then r == Entries(c)[key] && Entries(c') == Entries(c)
      else r == value && Entries(c') == (Entries(c) - victims)[key := value]
  {
    AllEntries(c);
    victims := {};
    if Holds(c.ring, key) {
      MarkedEntries(c, IndexOf(c.ring, key));
      EntryAt(c, IndexOf(c.ring, key));
    } else {
      InsertSound(c, key, value, c.generation);
      victims := PlacedEntries(c, Slot(key, value, false));
    }
  }

  /** So is an insertion: an entry of an older generation is not stored, and one that is there already wins. */
  lemma InsertRefines(c: Cache, key: Key, value: Prepared, generation: nat) returns (victims: set<Key>)
    requires Sound(c) && c.capacity > 0
    ensures |victims| <= 1 && Entries(Cleared(c)) == map[]
    ensures var (c', r) := Inserted(c, key, value, generation);
      if generation != c.generation then r == value && c' == c
      else if key in Entries(c) then r == Entries(c)[key] && c' == c
      else r == value && Entries(c') == (Entries(c) - victims)[key := value]
  {
    AllEntries(c);
    victims := {};
    if Holds(c.ring, key) {
      EntryAt(c, IndexOf(c.ring, key));
    } else if generation == c.generation {
      InsertSound(c, key, value, generation);
      victims := PlacedEntries(c, Slot(key, value, false));
    }
  }
}
