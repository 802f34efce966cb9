// What the TLB holds, read as a queue from the entry next in line for replacement to the newest.
module TlbQueue {
  import opened Words

  datatype Key = Key(pid: int, segment: nat, page: nat)

  datatype Cached = Cached(key: Key, frame: nat)

  // What the consistency thread and EXIT take out.
  datatype Removal = OfFrame(frame: nat) | OfPid(pid: int) | OfKey(key: Key)

  predicate Dies(r: Removal, c: Cached) {
    match r
    case OfFrame(frame) => c.frame == frame
    case OfPid(pid) => c.key.pid == pid
    case OfKey(key) => c.key == key
  }

  function Purge(q: seq<Cached>, r: Removal): (kept: seq<Cached>)
    ensures |kept| <= |q|
  {
    if q == [] then []
    else
      var last := q[|q| - 1];
      Purge(q[..|q| - 1], r) + if Dies(r, last) then [] else [last]
  }

  function Find(q: seq<Cached>, key: Key): (c: Option<Cached>)
    ensures c.Some? ==> c.value.key == key
  {
    if q == [] then None
    else if q[|q| - 1].key == key then Some(q[|q| - 1])
    else Find(q[..|q| - 1], key)
  }

  // check_tlb: a hit under LRU makes the entry the newest.
  function Lookup(q: seq<Cached>, lru: bool, key: Key): (seq<Cached>, Option<Cached>) {
    var hit := Find(q, key);
    (if lru && hit.Some? then Purge(q, OfKey(key)) + [hit.value] else q, hit)
  }

  // The end of a miss: add while there is room, else overwrite the entry at the head.
  function Insert(q: seq<Cached>, capacity: nat, c: Cached): seq<Cached> {
    if capacity == 0 then q
    else if |q| < capacity then q + [c]
    else if q == [] then q
    else q[1..] + [c]
  }

  // Look a page up, and fetch its frame on a miss.
  function Access(q: seq<Cached>, lru: bool, capacity: nat, c: Cached): seq<Cached> {
    var (q1, hit) := Lookup(q, lru, c.key);
    if hit.Some? then q1 else Insert(q1, capacity, c)
  }

  // ---------- Facts about the queue operations ----------

  lemma {:induction false} PurgeIn(q: seq<Cached>, r: Removal)
    ensures forall c :: c in Purge(q, r) <==> c in q && !Dies(r, c)
  {
    if q != [] {
      var front, last := q[..|q| - 1], q[|q| - 1];
      PurgeIn(front, r);
      assert q == front + [last];
    }
  }

  lemma {:induction false} PurgeConcat(p: seq<Cached>, q: seq<Cached>, r: Removal)
    ensures Purge(p + q, r) == Purge(p, r) + Purge(q, r)
    decreases |q|
  {
    if q == [] {
      assert p + q == p;
    } else {
      var front, last := q[..|q| - 1], q[|q| - 1];
      PurgeConcat(p, front, r);
      assert (p + q)[..|p + q| - 1] == p + front && (p + q)[|p + q| - 1] == last;
    }
  }

  lemma {:induction false} FindIn(q: seq<Cached>, key: Key)
    ensures Find(q, key).Some? ==> Find(q, key).value in q
    ensures Find(q, key).None? <==> forall c :: c in q ==> c.key != key
  {
    if q != [] {
      var front, last := q[..|q| - 1], q[|q| - 1];
      FindIn(front, key);
      assert q == front + [last];
    }
  }

  lemma {:induction false} FindConcat(p: seq<Cached>, q: seq<Cached>, key: Key)
    ensures Find(p + q, key) == if Find(q, key).Some? then Find(q, key) else Find(p, key)
    decreases |q|
  {
    if q == [] {
      assert p + q == p;
    } else {
      var front, last := q[..|q| - 1], q[|q| - 1];
      assert (p + q)[..|p + q| - 1] == p + front && (p + q)[|p + q| - 1] == last;
      FindConcat(p, front, key);
    }
  }

  // No page is cached twice.
  ghost predicate KeysUnique(q: seq<Cached>) {
    forall i, j :: 0 <= i < j < |q| ==> q[i].key != q[j].key
  }

  lemma {:induction false} PurgeUnique(q: seq<Cached>, r: Removal)
    requires KeysUnique(q)
    ensures KeysUnique(Purge(q, r))
  {
    if q != [] {
      var front, last := q[..|q| - 1], q[|q| - 1];
      PurgeUnique(front, r);
      PurgeIn(front, r);
      forall i | 0 <= i < |Purge(front, r)| ensures Purge(front, r)[i].key != last.key {
        assert Purge(front, r)[i] in front;
      }
    }
  }

  lemma {:induction false} PurgeOneLength(q: seq<Cached>, key: Key)
    requires KeysUnique(q)
    ensures |Purge(q, OfKey(key))| == if Find(q, key).Some? then |q| - 1 else |q|
  {
    if q != [] {
      var front, last := q[..|q| - 1], q[|q| - 1];
      PurgeOneLength(front, key);
      FindIn(front, key);
    }
  }

  // An access keeps keys unique and the size within the capacity; afterwards a page that fits is cached.
  lemma AccessKeeps(q: seq<Cached>, lru: bool, capacity: nat, c: Cached)
    requires KeysUnique(q) && |q| <= capacity
    ensures KeysUnique(Access(q, lru, capacity, c)) && |Access(q, lru, capacity, c)| <= capacity
    ensures capacity > 0 ==> exists d :: d in Access(q, lru, capacity, c) && d.key == c.key
    ensures forall d :: d in Access(q, lru, capacity, c) ==> d in q || d == c
  {
    FindIn(q, c.key);
    var (q1, hit) := Lookup(q, lru, c.key);
    if hit.Some? {
      assert hit.value in q;
      if lru {
        var kept := Purge(q, OfKey(c.key));
        PurgeUnique(q, OfKey(c.key));
        PurgeIn(q, OfKey(c.key));
        PurgeOneLength(q, c.key);
        assert forall i :: 0 <= i < |kept| ==> kept[i] in kept;
        assert hit.value in kept + [hit.value];
      }
    } else if capacity > 0 {
      assert forall i :: 0 <= i < |q| ==> q[i] in q;
      assert c in Access(q, lru, capacity, c);
    }
  }

  // ---------- LRU inclusion ----------

  datatype Event = Use(c: Cached) | Remove(r: Removal)

  function Play(q: seq<Cached>, capacity: nat, e: Event): seq<Cached> {
    match e
    case Use(c) => Access(q, true, capacity, c)
    case Remove(r) => Purge(q, r)
  }

  function PlayAll(q: seq<Cached>, capacity: nat, events: seq<Event>): seq<Cached>
    decreases |events|
  {
    if events == [] then q else PlayAll(Play(q, capacity, events[0]), capacity, events[1..])
  }

  function Misses(q: seq<Cached>, capacity: nat, events: seq<Event>): nat
    decreases |events|
  {
    if events == [] then 0
    else (if events[0].Use? && Find(q, events[0].c.key).None? then 1 else 0)
         + Misses(Play(q, capacity, events[0]), capacity, events[1..])
  }

  // Along the trace a page found cached is cached with the frame it has; no lookup hits a stale entry.
  ghost predicate Coherent(q: seq<Cached>, capacity: nat, events: seq<Event>)
    decreases |events|
  {
    events == [] ||
    (&& (events[0].Use? ==> forall c :: c in q && c.key == events[0].c.key ==> c == events[0].c)
     && Coherent(Play(q, capacity, events[0]), capacity, events[1..]))
  }

  // ----- The smaller queue stays the newest end of the larger one -----

  lemma {:induction false} PurgeNothing(q: seq<Cached>, r: Removal)
    requires forall c :: c in q ==> !Dies(r, c)
    ensures Purge(q, r) == q
  {
    if q != [] {
      var front, last := q[..|q| - 1], q[|q| - 1];
      assert last in q;
      PurgeNothing(front, r);
    }
  }

  lemma InsertSplit(rest: seq<Cached>, small: seq<Cached>, k: nat, c: Cached) returns (rest': seq<Cached>)
    requires |small| <= k
    ensures rest + small + [c] == rest' + Insert(small, k, c)
  {
    if k == 0 {
      rest' := rest + [c];
    } else if |small| < k {
      rest' := rest;
      assert rest + small + [c] == rest + (small + [c]);
    } else {
      rest' := rest + [small[0]];
      assert rest + small + [c] == rest + [small[0]] + (small[1..] + [c]);
    }
  }

  lemma UseSplit(rest: seq<Cached>, small: seq<Cached>, k: nat, k': nat, c: Cached) returns (rest': seq<Cached>)
    requires k <= k' && |small| <= k && |rest + small| <= k'
    requires Find(rest + small, c.key).Some? ==> Find(rest + small, c.key).value == c
    ensures Access(rest + small, true, k', c) == rest' + Access(small, true, k, c)
  {
    FindConcat(rest, small, c.key);
    PurgeConcat(rest, small, OfKey(c.key));
    rest' := Purge(rest, OfKey(c.key));
    if Find(small, c.key).Some? {
      assert rest' + Purge(small, OfKey(c.key)) + [c] == rest' + (Purge(small, OfKey(c.key)) + [c]);
    } else {
      FindIn(small, c.key);
      PurgeNothing(small, OfKey(c.key));
      if Find(rest, c.key).Some? {
        rest' := InsertSplit(rest', small, k, c);
      } else {
        rest' := MissSplit(rest, small, k, k', c);
      }
    }
  }

  // Both miss.
  lemma MissSplit(rest: seq<Cached>, small: seq<Cached>, k: nat, k': nat, c: Cached) returns (rest': seq<Cached>)
    requires k <= k' && |small| <= k && |rest + small| <= k'
    ensures Insert(rest + small, k', c) == rest' + Insert(small, k, c)
  {
    rest' := rest;
    if k' == 0 {
    } else if |rest + small| < k' {
      rest' := InsertSplit(rest, small, k, c);
    } else if rest != [] {
      rest' := InsertSplit(rest[1..], small, k, c);
      assert (rest + small)[1..] == rest[1..] + small;
    } else {
      assert rest + small == small;
    }
  }

  // On such a trace the smaller LRU TLB holds a part of what the larger one holds and misses no less.
  lemma {:induction false} LruInclusion(rest: seq<Cached>, small: seq<Cached>, k: nat, k': nat, events: seq<Event>)
    requires k <= k' && |small| <= k && |rest + small| <= k' && KeysUnique(rest + small) && KeysUnique(small)
    requires Coherent(rest + small, k', events)
    ensures forall c :: c in PlayAll(small, k, events) ==> c in PlayAll(rest + small, k', events)
    ensures Misses(rest + small, k', events) <= Misses(small, k, events)
    decreases |events|
  {
    if events != [] {
      var e, rest' := events[0], [];
      match e {
        case Use(c) =>
          FindIn(rest + small, c.key);
          FindConcat(rest, small, c.key);
          rest' := UseSplit(rest, small, k, k', c);
          AccessKeeps(small, true, k, c);
          AccessKeeps(rest + small, true, k', c);
        case Remove(r) =>
          PurgeConcat(rest, small, r);
          rest' := Purge(rest, r);
          PurgeUnique(small, r);
          PurgeUnique(rest + small, r);
      }
      LruInclusion(rest', Play(small, k, e), k, k', events[1..]);
    }
  }

  // The same from two empty TLBs.
  lemma LruNeverWorseWhenLarger(k: nat, k': nat, events: seq<Event>)
    requires k <= k' && Coherent([], k', events)
    ensures forall c :: c in PlayAll([], k, events) ==> c in PlayAll([], k', events)
    ensures Misses([], k', events) <= Misses([], k, events)
  {
    LruInclusion([], [], k, k', events);
  }

  // ---------- Why no stale entry may be hit ----------

  lemma PlayFirst(q: seq<Cached>, capacity: nat, e: Event, rest: seq<Event>)
    ensures PlayAll(q, capacity, [e] + rest) == PlayAll(Play(q, capacity, e), capacity, rest)
    ensures Coherent(q, capacity, [e] + rest) ==> Coherent(Play(q, capacity, e), capacity, rest)
  {
    assert ([e] + rest)[1..] == rest;
  }

  lemma OneEntry(c: Cached, key: Key, r: Removal)
    ensures Find([c], key) == if c.key == key then Some(c) else None
    ensures Purge([c], r) == if Dies(r, c) then [] else [c]
  {
    assert [c][..0] == [];
  }

  lemma TwoEntries(c: Cached, d: Cached, key: Key, r: Removal)
    ensures Find([c, d], key) == if d.key == key then Some(d) else if c.key == key then Some(c) else None
    ensures Purge([c, d], r) == (if Dies(r, c) then [] else [c]) + (if Dies(r, d) then [] else [d])
  {
    assert [c, d] == [c] + [d];
    OneEntry(c, key, r);
    OneEntry(d, key, r);
    FindConcat([c], [d], key);
    PurgeConcat([c], [d], r);
  }

  // Page A used in frame 1, page B in frame 2, page A in frame 3, frame 1 invalidated.
  const PAGE_A := Key(1, 0, 0)
  const PAGE_B := Key(1, 0, 1)
  const STALE := [Use(Cached(PAGE_A, 3)), Remove(OfFrame(1))]

  // With a stale hit inclusion fails: the larger TLB still has A in frame 1 when A is used in frame 3,
  // and loses it to the invalidation.
  lemma StaleHitBreaksInclusion()
    ensures var events := [Use(Cached(PAGE_A, 1))] + ([Use(Cached(PAGE_B, 2))] + STALE);
            && !Coherent([], 2, events)
            && PlayAll([], 1, events) == [Cached(PAGE_A, 3)] && PlayAll([], 2, events) == [Cached(PAGE_B, 2)]
  {
    var more := [Use(Cached(PAGE_B, 2))] + STALE;
    PlayFirst([], 1, Use(Cached(PAGE_A, 1)), more);
    PlayFirst([], 2, Use(Cached(PAGE_A, 1)), more);
    OneEntry(Cached(PAGE_A, 1), PAGE_B, OfKey(PAGE_B));
    PlayFirst([Cached(PAGE_A, 1)], 1, Use(Cached(PAGE_B, 2)), STALE);
    PlayFirst([Cached(PAGE_A, 1)], 2, Use(Cached(PAGE_B, 2)), STALE);
    assert [Cached(PAGE_A, 1)] + [Cached(PAGE_B, 2)] == [Cached(PAGE_A, 1), Cached(PAGE_B, 2)];
    StaleOne();
    StaleTwo();
  }

  lemma StaleOne()
    ensures PlayAll([Cached(PAGE_B, 2)], 1, STALE) == [Cached(PAGE_A, 3)]
  {
    OneEntry(Cached(PAGE_B, 2), PAGE_A, OfKey(PAGE_A));
    assert STALE == [Use(Cached(PAGE_A, 3))] + [Remove(OfFrame(1))];
    PlayFirst([Cached(PAGE_B, 2)], 1, Use(Cached(PAGE_A, 3)), [Remove(OfFrame(1))]);
    OneEntry(Cached(PAGE_A, 3), PAGE_A, OfFrame(1));
    PlayFirst([Cached(PAGE_A, 3)], 1, Remove(OfFrame(1)), []);
    assert [Remove(OfFrame(1))] + [] == [Remove(OfFrame(1))];
  }

  lemma StaleTwo()
    ensures PlayAll([Cached(PAGE_A, 1), Cached(PAGE_B, 2)], 2, STALE) == [Cached(PAGE_B, 2)]
    ensures !Coherent([Cached(PAGE_A, 1), Cached(PAGE_B, 2)], 2, STALE)
  {
    var q := [Cached(PAGE_A, 1), Cached(PAGE_B, 2)];
    TwoEntries(Cached(PAGE_A, 1), Cached(PAGE_B, 2), PAGE_A, OfKey(PAGE_A));
    assert STALE == [Use(Cached(PAGE_A, 3))] + [Remove(OfFrame(1))];
    PlayFirst(q, 2, Use(Cached(PAGE_A, 3)), [Remove(OfFrame(1))]);
    assert Play(q, 2, Use(Cached(PAGE_A, 3))) == [Cached(PAGE_B, 2), Cached(PAGE_A, 1)];
    TwoEntries(Cached(PAGE_B, 2), Cached(PAGE_A, 1), PAGE_A, OfFrame(1));
    PlayFirst([Cached(PAGE_B, 2), Cached(PAGE_A, 1)], 2, Remove(OfFrame(1)), []);
    assert [Remove(OfFrame(1))] + [] == [Remove(OfFrame(1))];
    assert q[0] in q;
  }
}
