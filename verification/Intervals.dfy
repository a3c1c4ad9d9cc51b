/** When blocks of numbers, one per interval, can be put together to count through all the intervals in order. */
module Intervals {

  function Range(lo: nat, hi: nat): (r: seq<nat>)
    requires lo <= hi
    ensures |r| == hi - lo && forall i :: 0 <= i < |r| ==> r[i] == lo + i
  {
    seq(hi - lo, i => lo + i)
  }

  lemma RangeJoin(a: nat, b: nat, c: nat)
    requires a <= b <= c
    ensures Range(a, b) + Range(b, c) == Range(a, c)
  {
  }

  /** The blocks ts, in the order of the indices ix. */
  function Cat(ix: seq<nat>, ts: seq<seq<nat>>): seq<nat>
    requires Indices(ix, ts)
  {
    if ix == [] then [] else ts[ix[0]] + Cat(ix[1..], ts)
  }

  predicate Indices(ix: seq<nat>, ts: seq<seq<nat>>) {
    forall p :: 0 <= p < |ix| ==> ix[p] < |ts|
  }

  /** The i-th interval is not reversed. */
  predicate Rises(lo: seq<nat>, i: nat) {
    i + 1 < |lo| && lo[i] <= lo[i + 1]
  }

  ghost predicate Within(t: seq<nat>, lo: seq<nat>, i: nat) {
    i + 1 < |lo| && forall j :: 0 <= j < |t| ==> lo[i] <= t[j] < lo[i + 1]
  }

  /** Bounds of |ts| adjacent intervals, and blocks that stay inside theirs. */
  ghost predicate Blocks(ts: seq<seq<nat>>, lo: seq<nat>) {
    && |lo| == |ts| + 1
    && (forall i :: 0 <= i < |ts| ==> Rises(lo, i))
    && (forall i :: 0 <= i < |ts| ==> Within(ts[i], lo, i))
  }

  predicate Holey(lo: seq<nat>, i: nat) {
    i + 1 < |lo| && lo[i] < lo[i + 1]
  }

  lemma {:induction false} Monotone(ts: seq<seq<nat>>, lo: seq<nat>, a: nat, b: nat)
    requires Blocks(ts, lo) && a <= b <= |ts|
    ensures lo[a] <= lo[b]
    ensures (forall i :: a <= i < b ==> !Holey(lo, i)) ==> lo[a] == lo[b]
    decreases b
  {
    if a < b {
      Monotone(ts, lo, a, b - 1);
      assert Rises(lo, b - 1);
      assert !Holey(lo, b - 1) ==> lo[b - 1] == lo[b];
    }
  }

  ghost predicate Whole(ts: seq<seq<nat>>, lo: seq<nat>, i: nat) {
    i < |ts| && i + 1 < |lo| && lo[i] <= lo[i + 1] && ts[i] == Range(lo[i], lo[i + 1])
  }

  /** Every non-empty interval from the a-th on is used exactly once, in order, and by its whole block. */
  ghost predicate InOrder(ix: seq<nat>, ts: seq<seq<nat>>, lo: seq<nat>, a: nat) {
    && (forall p :: 0 <= p < |ix| && Holey(lo, ix[p]) ==> a <= ix[p])
    && (forall p, q :: 0 <= p < q < |ix| && Holey(lo, ix[p]) && Holey(lo, ix[q]) ==> ix[p] < ix[q])
    && (forall i :: a <= i < |ts| && Holey(lo, i) ==> i in ix)
    && (forall i :: a <= i < |ts| && Holey(lo, i) ==> Whole(ts, lo, i))
  }

  lemma EmptyBlock(ts: seq<seq<nat>>, lo: seq<nat>, i: nat)
    requires Blocks(ts, lo) && i < |ts| && !Holey(lo, i)
    ensures ts[i] == []
  {
    assert Within(ts[i], lo, i);
    if ts[i] != [] {
      FirstWithin(ts[i], lo, i);
      assert false;
    }
  }

  lemma FirstWithin(t: seq<nat>, lo: seq<nat>, i: nat)
    requires Within(t, lo, i) && t != []
    ensures Holey(lo, i)
  {
    assert lo[i] <= t[0] < lo[i + 1];
  }

  lemma Tail(ix: seq<nat>)
    requires ix != []
    ensures forall j :: j in ix <==> j == ix[0] || j in ix[1..]
    ensures forall q :: 0 <= q < |ix| - 1 ==> ix[1..][q] == ix[q + 1]
  {
    assert ix == [ix[0]] + ix[1..];
  }

  /** Past its head, an order is an order from the next interval on. */
  lemma InOrderTail(ix: seq<nat>, ts: seq<seq<nat>>, lo: seq<nat>, a: nat)
    requires Blocks(ts, lo) && Indices(ix, ts) && a <= |ts| && ix != [] && InOrder(ix, ts, lo, a)
    ensures Indices(ix[1..], ts)
    ensures if Holey(lo, ix[0]) then InOrder(ix[1..], ts, lo, ix[0] + 1) && lo[a] == lo[ix[0]]
            else InOrder(ix[1..], ts, lo, a)
  {
    var i, rest := ix[0], ix[1..];
    Tail(ix);
    assert forall q :: 0 <= q < |rest| ==> rest[q] == ix[q + 1];
    if Holey(lo, i) {
      forall j | a <= j < i
        ensures !Holey(lo, j)
      {
        assert forall q :: 0 <= q < |rest| && Holey(lo, rest[q]) ==> i < rest[q];
      }
      Monotone(ts, lo, a, i);
    }
  }

  lemma {:induction false} InOrderCounts(ix: seq<nat>, ts: seq<seq<nat>>, lo: seq<nat>, a: nat)
    requires Blocks(ts, lo) && Indices(ix, ts) && a <= |ts| && InOrder(ix, ts, lo, a)
    ensures lo[a] <= lo[|ts|] && Cat(ix, ts) == Range(lo[a], lo[|ts|])
  {
    Monotone(ts, lo, a, |ts|);
    if ix != [] {
      InOrderTail(ix, ts, lo, a);
      if Holey(lo, ix[0]) {
        InOrderCounts(ix[1..], ts, lo, ix[0] + 1);
        assert Whole(ts, lo, ix[0]);
        RangeJoin(lo[ix[0]], lo[ix[0] + 1], lo[|ts|]);
      } else {
        EmptyBlock(ts, lo, ix[0]);
        InOrderCounts(ix[1..], ts, lo, a);
        assert [] + Cat(ix[1..], ts) == Cat(ix[1..], ts);
      }
    }
  }

  /** The first number comes from some block. */
  lemma {:induction false} FirstOf(ix: seq<nat>, ts: seq<seq<nat>>) returns (i: nat)
    requires Indices(ix, ts) && Cat(ix, ts) != []
    ensures i < |ts| && ts[i] != [] && Cat(ix, ts)[0] == ts[i][0]
  {
    if ts[ix[0]] != [] {
      i := ix[0];
    } else {
      i := FirstOf(ix[1..], ts);
    }
  }

  /** Only the i-th interval holds its numbers. */
  lemma SameInterval(ts: seq<seq<nat>>, lo: seq<nat>, i: nat, j: nat, x: nat)
    requires Blocks(ts, lo) && i < |ts| && j < |ts| && lo[i] <= x < lo[i + 1] && lo[j] <= x < lo[j + 1]
    ensures i == j
  {
    if i < j {
      Monotone(ts, lo, i + 1, j);
    } else if j < i {
      Monotone(ts, lo, j + 1, i);
    }
  }

  /** If the blocks count through the intervals from the a-th on, a head block that is not empty is that of the next
      non-empty interval. */
  lemma HeadStarts(ix: seq<nat>, ts: seq<seq<nat>>, lo: seq<nat>, a: nat)
    requires Blocks(ts, lo) && Indices(ix, ts) && a <= |ts| && ix != [] && ts[ix[0]] != []
    requires lo[a] <= lo[|ts|] && Cat(ix, ts) == Range(lo[a], lo[|ts|])
    ensures a <= ix[0] && lo[a] == lo[ix[0]] && Holey(lo, ix[0])
  {
    var i := ix[0];
    assert Within(ts[i], lo, i);
    assert ts[i][0] == Cat(ix, ts)[0] == lo[a];
    if i < a {
      Monotone(ts, lo, i + 1, a);
    } else {
      Monotone(ts, lo, a, i);
    }
  }

  /** ... and it is used up before anything else can follow it. */
  lemma HeadWhole(ix: seq<nat>, ts: seq<seq<nat>>, lo: seq<nat>, a: nat)
    requires Blocks(ts, lo) && Indices(ix, ts) && a <= |ts| && ix != [] && ts[ix[0]] != []
    requires lo[a] <= lo[|ts|] && Cat(ix, ts) == Range(lo[a], lo[|ts|])
    ensures Whole(ts, lo, ix[0]) && Holey(lo, ix[0]) && a <= ix[0] && lo[a] == lo[ix[0]]
  {
    HeadStarts(ix, ts, lo, a);
    var i, rest := ix[0], Cat(ix[1..], ts);
    var t, all := ts[i], Range(lo[a], lo[|ts|]);
    assert Within(t, lo, i);
    forall j | 0 <= j < |t|
      ensures t[j] == lo[i] + j
    {
      assert t[j] == Cat(ix, ts)[j];
    }
    assert t[|t| - 1] < lo[i + 1];
    Monotone(ts, lo, i + 1, |ts|);
    if |t| < lo[i + 1] - lo[i] {
      assert Cat(ix, ts)[|t|] == rest[0];
      var j := FirstOf(ix[1..], ts);
      assert Within(ts[j], lo, j);
      SameInterval(ts, lo, i, j, rest[0]);
      assert false;
    }
  }

  lemma RangeDrop(a: nat, b: nat, c: nat, rest: seq<nat>)
    requires a <= b <= c && Range(a, b) + rest == Range(a, c)
    ensures rest == Range(b, c)
  {
    assert (Range(a, b) + rest)[b - a..] == rest;
    RangeJoin(a, b, c);
    assert (Range(a, b) + Range(b, c))[b - a..] == Range(b, c);
  }

  /** Conversely, blocks that count through the intervals are in order. */
  lemma {:induction false} CountsInOrder(ix: seq<nat>, ts: seq<seq<nat>>, lo: seq<nat>, a: nat)
    requires Blocks(ts, lo) && Indices(ix, ts) && a <= |ts| && lo[a] <= lo[|ts|]
    requires Cat(ix, ts) == Range(lo[a], lo[|ts|])
    requires forall i :: 0 <= i < a && Holey(lo, i) ==> ts[i] != []
    ensures InOrder(ix, ts, lo, a)
  {
    if ix == [] {
      forall i | a <= i < |ts|
        ensures !Holey(lo, i)
      {
        Monotone(ts, lo, a, i);
        Monotone(ts, lo, i + 1, |ts|);
      }
    } else {
      var i, rest := ix[0], ix[1..];
      Tail(ix);
      if ts[i] == [] {
        assert [] + Cat(rest, ts) == Cat(rest, ts);
        CountsInOrder(rest, ts, lo, a);
        assert !Holey(lo, i) by {
          assert Whole(ts, lo, i) ==> !Holey(lo, i);
        }
      } else {
        HeadWhole(ix, ts, lo, a);
        Monotone(ts, lo, i + 1, |ts|);
        RangeDrop(lo[i], lo[i + 1], lo[|ts|], Cat(rest, ts));
        forall j | a <= j < i
          ensures !Holey(lo, j)
        {
          Monotone(ts, lo, a, j);
          Monotone(ts, lo, j + 1, i);
        }
        CountsInOrder(rest, ts, lo, i + 1);
      }
    }
  }
}
