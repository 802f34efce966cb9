// The TLB as cpu keeps it: a list in no particular order, each entry stamped with a time, and
// the loops that search it, stamp it, overwrite its oldest entry and take entries out of it.
module TlbUnit {
  import opened Words
  import opened TlbQueue
  import opened Replacement

  // A t_tlb.
  datatype Slot = Slot(cached: Cached, time: int)

  function Strip(slots: seq<Slot>): (q: seq<Cached>)
    ensures |q| == |slots|
    ensures forall i :: 0 <= i < |slots| ==> q[i] == slots[i].cached
  {
    seq(|slots|, i requires 0 <= i < |slots| => slots[i].cached)
  }

  ghost predicate Sorted(slots: seq<Slot>) {
    forall i, j :: 0 <= i < j < |slots| ==> slots[i].time < slots[j].time
  }

  ghost predicate TimesDistinct(slots: seq<Slot>) {
    forall i, j :: 0 <= i < j < |slots| ==> slots[i].time != slots[j].time
  }

  ghost predicate Before(slots: seq<Slot>, time: int) {
    forall i :: 0 <= i < |slots| ==> slots[i].time < time
  }

  ghost predicate SameSlots(a: seq<Slot>, b: seq<Slot>) {
    forall s :: s in a <==> s in b
  }

  // The list `slots` sorted by time is `order`.
  ghost predicate SortsTo(slots: seq<Slot>, order: seq<Slot>) {
    TimesDistinct(slots) && Sorted(order) && SameSlots(slots, order)
  }

  lemma {:induction false} LengthOfSlots(slots: seq<Slot>)
    requires TimesDistinct(slots)
    ensures |set s | s in slots| == |slots|
  {
    if slots != [] {
      var front, last := slots[..|slots| - 1], slots[|slots| - 1];
      LengthOfSlots(front);
      assert slots == front + [last] && last !in front;
      assert (set s | s in slots) == (set s | s in front) + {last};
    }
  }

  lemma SameLength(slots: seq<Slot>, order: seq<Slot>)
    requires SortsTo(slots, order)
    ensures |slots| == |order|
  {
    LengthOfSlots(slots);
    LengthOfSlots(order);
    assert (set s | s in slots) == (set s | s in order);
  }

  // Sorting by time has one outcome.
  lemma {:induction false} SortUnique(a: seq<Slot>, b: seq<Slot>)
    requires Sorted(a) && Sorted(b) && SameSlots(a, b)
    ensures a == b
    decreases |a|
  {
    SameLength(a, b);
    if a != [] {
      assert a[0] in b && b[0] in a;
      assert a[0] == b[0];
      forall s ensures s in a[1..] <==> s in b[1..] {
        assert s in a[1..] ==> s in a && s != a[0];
        assert s in b[1..] ==> s in b && s != b[0];
        assert a == [a[0]] + a[1..] && b == [b[0]] + b[1..];
      }
      SortUnique(a[1..], b[1..]);
    }
  }

  // ---------- Taking entries out ----------

  function Without(slots: seq<Slot>, r: Removal): seq<Slot> {
    if slots == [] then []
    else
      var last := slots[|slots| - 1];
      Without(slots[..|slots| - 1], r) + if Dies(r, last.cached) then [] else [last]
  }

  lemma {:induction false} WithoutIn(slots: seq<Slot>, r: Removal)
    ensures forall s :: s in Without(slots, r) <==> s in slots && !Dies(r, s.cached)
    ensures |Without(slots, r)| <= |slots|
  {
    if slots != [] {
      var front, last := slots[..|slots| - 1], slots[|slots| - 1];
      WithoutIn(front, r);
      assert slots == front + [last];
    }
  }

  lemma {:induction false} WithoutStrip(slots: seq<Slot>, r: Removal)
    ensures Strip(Without(slots, r)) == Purge(Strip(slots), r)
  {
    if slots != [] {
      var front := slots[..|slots| - 1];
      WithoutStrip(front, r);
      assert Strip(slots)[..|slots| - 1] == Strip(front);
    }
  }

  lemma {:induction false} WithoutSorted(slots: seq<Slot>, r: Removal)
    requires Sorted(slots)
    ensures Sorted(Without(slots, r))
  {
    if slots != [] {
      var front := slots[..|slots| - 1];
      WithoutSorted(front, r);
      WithoutIn(front, r);
      assert forall i :: 0 <= i < |Without(front, r)| ==> Without(front, r)[i] in front;
    }
  }

  lemma {:induction false} WithoutDistinct(slots: seq<Slot>, r: Removal)
    requires TimesDistinct(slots)
    ensures TimesDistinct(Without(slots, r))
  {
    if slots != [] {
      var front := slots[..|slots| - 1];
      WithoutDistinct(front, r);
      WithoutIn(front, r);
      assert forall i :: 0 <= i < |Without(front, r)| ==> Without(front, r)[i] in front;
    }
  }

  lemma KeysUniqueMore(q: seq<Cached>, c: Cached)
    requires KeysUnique(q) && forall d :: d in q ==> d.key != c.key
    ensures KeysUnique(q + [c])
  {
    assert forall i :: 0 <= i < |q| ==> q[i] in q;
  }

  lemma SortsWithout(slots: seq<Slot>, order: seq<Slot>, r: Removal)
    requires SortsTo(slots, order)
    ensures SortsTo(Without(slots, r), Without(order, r))
  {
    WithoutIn(slots, r);
    WithoutIn(order, r);
    WithoutDistinct(slots, r);
    WithoutSorted(order, r);
  }

  // Stamping entry i of the list with a later time makes it the last in the order.
  lemma StampSorts(slots: seq<Slot>, order: seq<Slot>, i: nat, cached: Cached, now: int, order': seq<Slot>)
    requires SortsTo(slots, order) && Before(order, now) && i < |slots|
    requires Sorted(order') && Before(order', now)
    requires forall s :: s in order' <==> s in order && s != slots[i]
    ensures SortsTo(slots[i := Slot(cached, now)], order' + [Slot(cached, now)])
    ensures Before(order' + [Slot(cached, now)], now + 1)
  {
    var slots', stamped := slots[i := Slot(cached, now)], Slot(cached, now);
    forall j | 0 <= j < |slots| ensures slots[j].time < now {
      assert slots[j] in order;
    }
    forall s ensures s in slots' <==> s in order' + [stamped] {
      if s in slots' {
        var j :| 0 <= j < |slots'| && slots'[j] == s;
        if j != i { assert slots[j] in order && slots[j] != slots[i]; }
      }
      if s in order' {
        assert s in slots && s != slots[i];
        var j :| 0 <= j < |slots| && slots[j] == s;
        assert slots'[j] == s;
      }
      if s == stamped { assert slots'[i] == stamped; }
    }
  }

  // The same with the entries that leave given by what takes them out, down to the queue.
  lemma Stamped(slots: seq<Slot>, order: seq<Slot>, i: nat, cached: Cached, now: int, leaving: Removal)
    requires SortsTo(slots, order) && Before(order, now) && KeysUnique(Strip(order)) && i < |slots|
    requires forall s :: s in Without(order, leaving) <==> s in order && s != slots[i]
    requires forall c :: c in Purge(Strip(order), leaving) ==> c.key != cached.key
    ensures var order' := Without(order, leaving) + [Slot(cached, now)];
            && SortsTo(slots[i := Slot(cached, now)], order') && Before(order', now + 1)
            && Strip(order') == Purge(Strip(order), leaving) + [cached] && KeysUnique(Strip(order'))
  {
    var kept := Without(order, leaving);
    assert Sorted(kept) by { WithoutSorted(order, leaving); }
    assert Before(kept, now) by {
      forall j | 0 <= j < |kept| ensures kept[j].time < now { assert kept[j] in order; }
    }
    StampSorts(slots, order, i, cached, now, kept);
    assert Strip(kept + [Slot(cached, now)]) == Purge(Strip(order), leaving) + [cached] by {
      WithoutStrip(order, leaving);
    }
    PurgeUnique(Strip(order), leaving);
    KeysUniqueMore(Purge(Strip(order), leaving), cached);
  }

  lemma AppendSorts(slots: seq<Slot>, order: seq<Slot>, cached: Cached, now: int)
    requires SortsTo(slots, order) && Before(order, now)
    ensures SortsTo(slots + [Slot(cached, now)], order + [Slot(cached, now)])
    ensures Before(order + [Slot(cached, now)], now + 1)
  {
    forall j | 0 <= j < |slots| ensures slots[j].time < now {
      assert slots[j] in order;
    }
  }

  lemma DropStep(slots: seq<Slot>, i: nat, r: Removal)
    requires i < |slots|
    ensures var next := if Dies(r, slots[i].cached) then slots[..i] + slots[i + 1..] else slots;
            Without(next[..i], r) + next[i..] == Without(slots[..i + 1], r) + slots[i + 1..]
  {
    var next := if Dies(r, slots[i].cached) then slots[..i] + slots[i + 1..] else slots;
    assert slots[..i + 1][..i] == slots[..i] == next[..i];
    assert slots[i..] == [slots[i]] + slots[i + 1..];
  }

  // ---------- The list ----------

  class Tlb {
    const lru: bool          // REEMPLAZO_TLB
    const inputsTlb: nat     // ENTRADAS_TLB
    var tlb: seq<Slot>
    var timestamp: int
    ghost var order: seq<Slot>

    ghost predicate Valid()
      reads this
    {
      SortsTo(tlb, order) && Before(order, timestamp) && KeysUnique(Strip(order)) && |tlb| <= inputsTlb
    }

    // The abstract FIFO or LRU queue.
    ghost function Queue(): (q: seq<Cached>)
      reads this
    {
      Strip(order)
    }

    constructor (lru: bool, inputsTlb: nat)
      ensures Valid() && Queue() == [] && this.lru == lru && this.inputsTlb == inputsTlb
    {
      this.lru, this.inputsTlb := lru, inputsTlb;
      tlb, order, timestamp := [], [], 0;
    }

    // The slot of a key: where it is in the list, and that it is the only one.
    lemma SlotOf(i: nat)
      requires Valid() && i < |tlb|
      ensures Find(Queue(), tlb[i].cached.key) == Some(tlb[i].cached)
      ensures forall j :: 0 <= j < |tlb| && j != i ==> tlb[j].cached.key != tlb[i].cached.key
      ensures forall s :: s in Without(order, OfKey(tlb[i].cached.key)) <==> s in order && s != tlb[i]
    {
      var key := tlb[i].cached.key;
      FindIn(Queue(), key);
      assert tlb[i] in order;
      var p :| 0 <= p < |order| && order[p] == tlb[i];
      assert Queue()[p] == tlb[i].cached && Queue()[p] in Queue();
      WithoutIn(order, OfKey(key));
      forall s | s in order && s.cached.key == key ensures s == tlb[i] {
        var q :| 0 <= q < |order| && order[q] == s;
        assert Queue()[q].key == Queue()[p].key;
      }
      forall j | 0 <= j < |tlb| && j != i ensures tlb[j].cached.key != key {
        assert tlb[j] in order;
      }
    }

    // check_tlb: the frame, or -1
    method CheckTlb(key: Key) returns (frame: int)
      requires Valid()
      modifies this`tlb, this`timestamp, this`order
      ensures Valid()
      ensures var (q, hit) := Lookup(old(Queue()), lru, key);
              Queue() == q && frame == if hit.Some? then hit.value.frame else -1
      ensures var q := old(Queue());
              && (frame == -1 ==> Queue() == q && forall i :: 0 <= i < |q| ==> q[i].key != key)
              && (frame != -1 ==>
                    exists i :: && 0 <= i < |q| && q[i] == Cached(key, frame)
                                && Queue() == if lru then q[..i] + q[i + 1..] + [q[i]] else q)
    {
      LookupMoves(Queue(), lru, key);
      frame := -1;
      var i := 0;
      while i < |tlb|
        invariant i <= |tlb|
        invariant frame == -1 ==>
                    && tlb == old(tlb) && order == old(order) && timestamp == old(timestamp)
                    && forall j :: 0 <= j < i ==> tlb[j].cached.key != key
        invariant frame != -1 ==> forall j :: i <= j < |tlb| ==> tlb[j].cached.key != key
        invariant Valid()
        invariant frame != -1 ==>
                    var (q, hit) := Lookup(old(Queue()), lru, key);
                    Queue() == q && hit.Some? && frame == hit.value.frame
      {
        if tlb[i].cached.key == key {
          assert frame == -1;
          SlotOf(i);
          frame := tlb[i].cached.frame;
          if lru {
            PurgeIn(Queue(), OfKey(key));
            Stamp(i, tlb[i].cached, OfKey(key));
          }
        }
        i := i + 1;
      }
      if frame == -1 {
        KeyAbsent(key);
      }
    }

    lemma KeyAbsent(key: Key)
      requires Valid() && forall j :: 0 <= j < |tlb| ==> tlb[j].cached.key != key
      ensures Find(Queue(), key).None?
    {
      FindIn(Queue(), key);
      forall c | c in Queue() ensures c.key != key {
        var p :| 0 <= p < |order| && Queue()[p] == c;
        assert order[p] in tlb;
      }
    }

    // Give slot i contents and the current time.
    method Stamp(i: nat, cached: Cached, ghost leaving: Removal)
      requires Valid() && i < |tlb|
      requires forall s :: s in Without(order, leaving) <==> s in order && s != tlb[i]
      requires forall c :: c in Purge(Queue(), leaving) ==> c.key != cached.key
      modifies this`tlb, this`timestamp, this`order
      ensures Valid() && tlb == old(tlb)[i := Slot(cached, old(timestamp))]
      ensures Queue() == Purge(old(Queue()), leaving) + [cached]
    {
      Stamped(tlb, order, i, cached, timestamp, leaving);
      tlb := tlb[i := Slot(cached, timestamp)];
      order := Without(order, leaving) + [Slot(cached, timestamp)];
      timestamp := timestamp + 1;
    }

    // add_to_tlb
    method AddToTlb(cached: Cached)
      requires Valid() && |tlb| < inputsTlb && Find(Queue(), cached.key).None?
      modifies this`tlb, this`timestamp, this`order
      ensures Valid() && Queue() == Insert(old(Queue()), inputsTlb, cached)
    {
      SameLength(tlb, order);
      FindIn(Queue(), cached.key);
      KeysUniqueMore(Queue(), cached);
      AppendSorts(tlb, order, cached, timestamp);
      assert Strip(order + [Slot(cached, timestamp)]) == Strip(order) + [cached];
      tlb := tlb + [Slot(cached, timestamp)];
      order := order + [Slot(cached, timestamp)];
      timestamp := timestamp + 1;
    }

    // replace_tlb_input: overwrite the entry with the lowest time
    method ReplaceTlbInput(cached: Cached)
      requires Valid() && 0 < inputsTlb == |tlb| && Find(Queue(), cached.key).None?
      modifies this`tlb, this`timestamp, this`order
      ensures Valid() && Queue() == Insert(old(Queue()), inputsTlb, cached)
    {
      var replaceValue := tlb[0].time + 1;
      var indexReplace := 0;
      var i := 0;
      while i < |tlb|
        invariant i <= |tlb| && indexReplace < |tlb|
        invariant i == 0 ==> replaceValue == tlb[0].time + 1
        invariant i > 0 ==> replaceValue == tlb[indexReplace].time
        invariant forall j :: 0 <= j < i ==> replaceValue <= tlb[j].time
      {
        if tlb[i].time < replaceValue {
          replaceValue := tlb[i].time;
          indexReplace := i;
        }
        i := i + 1;
      }
      SameLength(tlb, order);
      OldestIsHead(indexReplace);
      SlotOf(indexReplace);
      HeadPurged();
      FindIn(Queue(), cached.key);
      PurgeIn(Queue(), OfKey(order[0].cached.key));
      Stamp(indexReplace, cached, OfKey(order[0].cached.key));
    }

    lemma OldestIsHead(i: nat)
      requires Valid() && i < |tlb| && forall j :: 0 <= j < |tlb| ==> tlb[i].time <= tlb[j].time
      ensures |order| > 0 && tlb[i] == order[0]
    {
      assert tlb[i] in order;
      var p :| 0 <= p < |order| && order[p] == tlb[i];
      assert order[0] in tlb;
    }

    lemma HeadPurged()
      requires Valid() && order != []
      ensures Purge(Queue(), OfKey(order[0].cached.key)) == Queue()[1..]
    {
      var q, key := Queue(), order[0].cached.key;
      PurgeConcat(q[..1], q[1..], OfKey(key));
      assert q == q[..1] + q[1..];
      forall c | c in q[1..] ensures c.key != key {
        var j :| 0 <= j < |q[1..]| && q[1..][j] == c;
        assert q[j + 1].key != q[0].key;
      }
      PurgeNothing(q[1..], OfKey(key));
      assert Purge(q[..1], OfKey(key)) == [];
    }

    // The end of a miss in mov_execute.
    method InsertFrame(cached: Cached)
      requires Valid() && Find(Queue(), cached.key).None?
      modifies this`tlb, this`timestamp, this`order
      ensures Valid() && Queue() == Insert(old(Queue()), inputsTlb, cached)
    {
      SameLength(tlb, order);
      if inputsTlb > 0 {
        if |tlb| < inputsTlb {
          AddToTlb(cached);
        } else {
          ReplaceTlbInput(cached);
        }
      }
    }

    // The loops of consistency_check (by frame) and of EXIT (by pid), from the end of the list.
    method RemoveEntries(r: Removal)
      requires Valid()
      modifies this`tlb, this`order
      ensures Valid() && Queue() == Purge(old(Queue()), r)
    {
      ghost var slots := tlb;
      var i := |tlb|;
      assert tlb[..i] == tlb && Without(tlb[..i], r) + tlb[i..] == Without(slots, r);
      while i > 0
        invariant 0 <= i <= |tlb| && order == old(order)
        invariant Without(tlb[..i], r) + tlb[i..] == Without(slots, r)
      {
        i := i - 1;
        DropStep(tlb, i, r);
        if Dies(r, tlb[i].cached) {
          tlb := tlb[..i] + tlb[i + 1..];
        }
      }
      assert tlb == Without(slots, r);
      SortsWithout(slots, order, r);
      WithoutIn(slots, r);
      WithoutIn(order, r);
      WithoutStrip(order, r);
      PurgeUnique(Queue(), r);
      order := Without(order, r);
    }
  }
}
