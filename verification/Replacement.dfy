// Which TLB entry is overwritten next, under FIFO and under LRU, read off the queue's positions.
module Replacement {
  import opened Words
  import opened TlbQueue

  // ---------- One access ----------

  // Taking out one page leaves the others in their order.
  lemma {:induction false} PurgeAt(q: seq<Cached>, i: nat)
    requires KeysUnique(q) && i < |q|
    ensures Purge(q, OfKey(q[i].key)) == q[..i] + q[i + 1..]
    decreases |q|
  {
    var last := |q| - 1;
    var front, key := q[..last], q[i].key;
    if i == last {
      forall c | c in front ensures !Dies(OfKey(key), c) {
        var j :| 0 <= j < last && front[j] == c;
        assert q[j].key != q[last].key;
      }
      PurgeNothing(front, OfKey(key));
      assert q[i + 1..] == [];
    } else {
      PurgeAt(front, i);
      assert q[i].key != q[last].key;
      assert front[..i] + front[i + 1..] + [q[last]] == q[..i] + q[i + 1..];
    }
  }

  lemma FoundAt(q: seq<Cached>, i: nat)
    requires KeysUnique(q) && i < |q|
    ensures Find(q, q[i].key) == Some(q[i])
  {
    FindIn(q, q[i].key);
    assert q[i] in q;
    var c := Find(q, q[i].key).value;
    var j :| 0 <= j < |q| && q[j] == c;
  }

  // A lookup by itself.
  lemma LookupMoves(q: seq<Cached>, lru: bool, key: Key)
    requires KeysUnique(q)
    ensures var (q', hit) := Lookup(q, lru, key);
            && (hit.None? ==> q' == q && forall i :: 0 <= i < |q| ==> q[i].key != key)
            && (hit.Some? ==>
                  exists i :: && 0 <= i < |q| && q[i] == Cached(key, hit.value.frame)
                              && q' == if lru then q[..i] + q[i + 1..] + [q[i]] else q)
  {
    FindIn(q, key);
    var hit := Find(q, key);
    if hit.Some? {
      var i :| 0 <= i < |q| && q[i] == hit.value;
      PurgeAt(q, i);
    }
  }

  // A hit: under FIFO every entry stays at its index, under LRU the entry hit goes to the end and the
  // others keep their order.
  lemma HitMoves(q: seq<Cached>, lru: bool, capacity: nat, c: Cached, i: nat)
    requires KeysUnique(q) && i < |q| && q[i].key == c.key
    ensures Access(q, lru, capacity, c) == if lru then q[..i] + q[i + 1..] + [q[i]] else q
  {
    FoundAt(q, i);
    PurgeAt(q, i);
  }

  // A miss, under either: while there is room the new entry goes to the end; when there is none the entry
  // at index 0 is overwritten and every other one moves up by one.
  lemma MissMoves(q: seq<Cached>, lru: bool, capacity: nat, c: Cached)
    requires |q| <= capacity && capacity > 0 && forall d :: d in q ==> d.key != c.key
    ensures |q| < capacity ==> Access(q, lru, capacity, c) == q + [c]
    ensures |q| == capacity ==> Access(q, lru, capacity, c) == q[1..] + [c]
  {
    FindIn(q, c.key);
  }

  // ---------- FIFO over many accesses ----------

  predicate Holds(q: seq<Cached>, key: Key) {
    exists i :: 0 <= i < |q| && q[i].key == key
  }

  // A FIFO TLB after these accesses, and how many of them missed.
  function PlayFifo(q: seq<Cached>, capacity: nat, uses: seq<Cached>): seq<Cached> {
    if uses == [] then q
    else Access(PlayFifo(q, capacity, uses[..|uses| - 1]), false, capacity, uses[|uses| - 1])
  }

  function FifoMisses(q: seq<Cached>, capacity: nat, uses: seq<Cached>): nat {
    if uses == [] then 0
    else
      FifoMisses(q, capacity, uses[..|uses| - 1])
      + if Holds(PlayFifo(q, capacity, uses[..|uses| - 1]), uses[|uses| - 1].key) then 0 else 1
  }

  lemma {:induction false} FifoStaysFull(q: seq<Cached>, capacity: nat, uses: seq<Cached>)
    requires KeysUnique(q) && |q| == capacity > 0
    ensures KeysUnique(PlayFifo(q, capacity, uses)) && |PlayFifo(q, capacity, uses)| == capacity
    decreases |uses|
  {
    if uses != [] {
      var front, c := uses[..|uses| - 1], uses[|uses| - 1];
      FifoStaysFull(q, capacity, front);
      var before := PlayFifo(q, capacity, front);
      AccessKeeps(before, false, capacity, c);
      if Holds(before, c.key) {
        var i :| 0 <= i < |before| && before[i].key == c.key;
        HitMoves(before, false, capacity, c, i);
      } else {
        MissMoves(before, false, capacity, c);
      }
    }
  }

  // In a full FIFO TLB the entry at index k has moved up by one for each miss, whatever hits came between.
  lemma {:induction false} FifoMovesUp(q: seq<Cached>, capacity: nat, uses: seq<Cached>, k: nat)
    requires KeysUnique(q) && |q| == capacity && k < |q| && FifoMisses(q, capacity, uses) <= k
    ensures var left := k - FifoMisses(q, capacity, uses);
            left < |PlayFifo(q, capacity, uses)| && PlayFifo(q, capacity, uses)[left] == q[k]
    decreases |uses|
  {
    if uses != [] {
      var front, c := uses[..|uses| - 1], uses[|uses| - 1];
      FifoMovesUp(q, capacity, front, k);
      FifoStaysFull(q, capacity, front);
      var before := PlayFifo(q, capacity, front);
      if Holds(before, c.key) {
        var i :| 0 <= i < |before| && before[i].key == c.key;
        HitMoves(before, false, capacity, c, i);
      } else {
        MissMoves(before, false, capacity, c);
      }
    }
  }

  // And it is overwritten at exactly the (k+1)-th miss: an access takes it out if and only if it is that.
  lemma FifoOverwrites(q: seq<Cached>, capacity: nat, uses: seq<Cached>, c: Cached, k: nat)
    requires KeysUnique(q) && |q| == capacity && k < |q| && FifoMisses(q, capacity, uses) <= k
    ensures q[k] in PlayFifo(q, capacity, uses)
    ensures q[k] !in PlayFifo(q, capacity, uses + [c]) <==> FifoMisses(q, capacity, uses + [c]) == k + 1
  {
    var before := PlayFifo(q, capacity, uses);
    assert (uses + [c])[..|uses|] == uses;
    FifoMovesUp(q, capacity, uses, k);
    if FifoMisses(q, capacity, uses + [c]) <= k {
      FifoMovesUp(q, capacity, uses + [c], k);
    } else {
      FifoStaysFull(q, capacity, uses);
      MissMoves(before, false, capacity, c);
      forall j | 0 < j < |before| ensures before[j] != before[0] {
        assert before[0].key != before[j].key;
      }
    }
  }
}
