// The memory server as memoria runs it: page entries updated in place inside nested lists, a clock
// hand kept in two variables between calls, RAM in one buffer and a swap file appended to.
module MemoryServer {
  import opened Words
  import opened Clock
  import opened Paging
  import opened Eviction
  import opened PagingRuns

  // ---------- Lists of lists ----------

  // The first n lists, one after the other.
  ghost function Flatten<T>(lists: seq<seq<T>>, n: nat): seq<T>
    requires n <= |lists|
  {
    if n == 0 then [] else Flatten(lists, n - 1) + lists[n - 1]
  }

  function Sizes<T>(lists: seq<seq<T>>): (sizes: seq<nat>)
    ensures |sizes| == |lists| && forall i :: 0 <= i < |lists| ==> sizes[i] == |lists[i]|
  {
    seq(|lists|, i requires 0 <= i < |lists| => |lists[i]|)
  }

  lemma {:induction false} FlattenLength<T>(lists: seq<seq<T>>, n: nat)
    requires n <= |lists|
    ensures |Flatten(lists, n)| == Base(Sizes(lists), n)
    decreases n
  {
    if n > 0 { FlattenLength(lists, n - 1); }
  }

  lemma {:induction false} FlattenAt<T>(lists: seq<seq<T>>, n: nat, i: nat, j: nat)
    requires i < n <= |lists| && j < |lists[i]|
    ensures Base(Sizes(lists), i) + j < |Flatten(lists, n)|
    ensures Flatten(lists, n)[Base(Sizes(lists), i) + j] == lists[i][j]
    decreases n
  {
    FlattenLength(lists, n);
    FlattenLength(lists, n - 1);
    if i < n - 1 { FlattenAt(lists, n - 1, i, j); }
  }

  // (pointer + 1) % size
  function Next(pointer: nat, size: nat): nat
    requires pointer < size
  {
    if pointer + 1 == size then 0 else pointer + 1
  }

  // ---------- Page entries ----------

  class PageEntry {
    var frame: int
    var P: bool
    var U: bool
    var M: bool
    var swapPos: int
    ghost const id: nat   // its place in (table, page) order

    constructor (ghost id: nat)
      ensures Value() == FRESH_PAGE && this.id == id
    {
      this.id := id;
      frame, P, U, M, swapPos := -1, false, false, false, -1;
    }

    function Value(): Page
      reads this
    {
      Page(frame, P, U, M, swapPos)
    }

    method Clear()
      modifies this
      ensures Value() == FRESH_PAGE
    {
      frame, P, U, M, swapPos := -1, false, false, false, -1;
    }
  }

  // Every entry knows its own place, so no two are the same object.
  ghost predicate Indexed(entries: seq<PageEntry>, repr: set<PageEntry>) {
    forall k :: 0 <= k < |entries| ==> entries[k] in repr && entries[k].id == k
  }

  // The values of the first n entries.
  ghost function Values(entries: seq<PageEntry>, n: nat, repr: set<PageEntry>): (pages: seq<Page>)
    requires n <= |entries| && Indexed(entries, repr)
    reads repr
    ensures |pages| == n
  {
    if n == 0 then [] else Values(entries, n - 1, repr) + [entries[n - 1].Value()]
  }

  lemma {:induction false} ValuesAt(entries: seq<PageEntry>, n: nat, repr: set<PageEntry>)
    requires n <= |entries| && Indexed(entries, repr)
    ensures forall k :: 0 <= k < n ==> Values(entries, n, repr)[k] == entries[k].Value()
    decreases n
  {
    if n > 0 { ValuesAt(entries, n - 1, repr); }
  }

  // A table is the stretch of entries that starts at `base`.
  ghost predicate LiesAt(table: seq<PageEntry>, entries: seq<PageEntry>, base: nat) {
    base + |table| <= |entries| && forall j :: 0 <= j < |table| ==> entries[base + j] == table[j]
  }

  class Memory {
    const algorithm: Algorithm
    const pageSize: nat
    var pageTables: seq<seq<PageEntry>>
    var framesUsage: seq<bool>
    const ram: array<Byte>
    var swap: seq<Byte>
    var pageTablePointer: nat
    var pagePointer: nat
    ghost var flat: seq<PageEntry>   // the entries in (table, page) order
    ghost var repr: set<PageEntry>
    ghost var latest: Latest         // what each page holds since it was first written

    ghost function Hand(): nat
      reads this`pageTables, this`pageTablePointer, this`pagePointer
      requires pageTablePointer <= |pageTables|
    {
      Base(Sizes(pageTables), pageTablePointer) + pagePointer
    }

    ghost function Pages(): (pages: seq<Page>)
      reads this`flat, this`repr, repr
      requires Indexed(flat, repr)
    {
      Values(flat, |flat|, repr)
    }

    ghost predicate Tables()
      reads this`pageTables, this`flat, this`repr
    {
      && Indexed(flat, repr)
      && flat == Flatten(pageTables, |pageTables|)
      && |flat| == Base(Sizes(pageTables), |pageTables|)
    }

    ghost predicate Layout()
      reads this`pageTables, this`flat, this`repr, this`pageTablePointer, this`pagePointer
    {
      && Tables()
      && (|| (pageTablePointer == 0 && pagePointer == 0)
          || (pageTablePointer < |pageTables| && pagePointer < |pageTables[pageTablePointer]|))
      && Hand() <= |flat|
    }

    ghost function State(): Mem
      reads this`pageTables, this`flat, this`repr, this`framesUsage, this`swap, this`pageTablePointer, this`pagePointer
      reads ram, repr
      requires Layout()
    {
      Mem(algorithm, pageSize, Sizes(pageTables), Pages(), framesUsage, ram[..], swap, Hand())
    }

    ghost predicate Valid()
      reads this, ram, repr
    {
      Layout() && Sound(State(), latest)
    }

    lemma EntryAt(i: nat, j: nat)
      requires Tables() && i < |pageTables| && j < |pageTables[i]|
      ensures Base(Sizes(pageTables), i) + j < |flat|
      ensures flat[Base(Sizes(pageTables), i) + j] == pageTables[i][j]
    {
      FlattenAt(pageTables, |pageTables|, i, j);
    }

    lemma TableAt(i: nat)
      requires Tables() && i < |pageTables|
      ensures Base(Sizes(pageTables), i) + |pageTables[i]| == Base(Sizes(pageTables), i + 1) <= |flat|
      ensures LiesAt(pageTables[i], flat, Base(Sizes(pageTables), i))
    {
      BaseMonotone(Sizes(pageTables), i + 1, |pageTables|);
      forall j | 0 <= j < |pageTables[i]|
        ensures flat[Base(Sizes(pageTables), i) + j] == pageTables[i][j]
      {
        EntryAt(i, j);
      }
    }

    lemma HandInside()
      requires Layout() && flat != []
      ensures Hand() < |flat|
    {
      if pageTablePointer < |pageTables| { BaseMonotone(Sizes(pageTables), pageTablePointer + 1, |pageTables|); }
    }

    // initialize_memory_structures
    constructor (algorithm: Algorithm, memorySize: nat, pageSize: nat, framesCount: nat)
      requires pageSize > 0 && framesCount > 0 && framesCount * pageSize <= 4 * memorySize
      ensures Valid() && fresh(ram)
      ensures State() == Initial(algorithm, pageSize, framesCount, ram[..]) && latest == []
    {
      this.algorithm, this.pageSize := algorithm, pageSize;
      ram := new Byte[4 * memorySize];
      pageTables, swap, pageTablePointer, pagePointer := [], [], 0, 0;
      flat, latest, repr := [], [], {};
      var usage: seq<bool> := [];
      for i := 0 to framesCount
        invariant usage == seq(i, _ => false)
      {
        usage := usage + [false];
      }
      framesUsage := usage;
    }

    // is_victim, asked of entry k
    method IsVictim(page: PageEntry, iteration: nat, ghost k: nat) returns (hit: bool)
      requires Indexed(flat, repr) && k < |flat| && flat[k] == page
      modifies page`U
      ensures hit == Clock.IsVictim(algorithm, old(Pages())[k], iteration)
      ensures Pages() == if hit then old(Pages())
                              else old(Pages())[k := Passed(algorithm, old(Pages())[k], iteration)]
    {
      ghost var before := Pages();
      ValuesAt(flat, |flat|, repr);
      if algorithm == ClockM {
        if !page.P { return false; }
        if iteration % 2 == 0 {
          if !page.U && !page.M { return true; }
        } else {
          if !page.U && page.M {
            return true;
          } else {
            page.U := false;
          }
        }
      } else {
        if !page.P { return false; }
        if !page.U {
          return true;
        } else {
          page.U := false;
        }
      }
      ValuesAt(flat, |flat|, repr);
      assert Pages() == before[k := Passed(algorithm, before[k], iteration)];
      return false;
    }

    // The inner loop of find_victim: what is left of one table in round o, from entry `at`. `choice` is
    // where the scan of all entries ends; `left` is what remains of the inspections it may still take.
    method SearchTable(table: seq<PageEntry>, o: nat, ghost at: nat, ghost end: nat, ghost budget: nat,
                       ghost choice: Choice)
      returns (victim: PageEntry?, ghost left: nat)
      requires Indexed(flat, repr) && flat != [] && pageTablePointer < |pageTables|
      requires at + |table| == end + pagePointer && end >= |table| && LiesAt(table, flat, end - |table|)
      requires pagePointer == 0 || pagePointer < |table|
      requires ScanEnds(algorithm, Pages(), o, at, budget, choice)
      modifies this`pageTablePointer, this`pagePointer, repr
      ensures pageTablePointer ==
              if victim != null then old(pageTablePointer) else Next(old(pageTablePointer), |pageTables|)
      ensures victim != null ==>
                && pagePointer < |table| && choice == Choice(end - |table| + pagePointer, Pages())
                && victim == flat[end - |table| + pagePointer]
      ensures victim == null ==>
                pagePointer == 0 && left == budget + at - end && ScanEnds(algorithm, Pages(), o, end, left, choice)
    {
      left := budget;
      ghost var k := at;
      var j := pagePointer;
      while j < |table|
        invariant pageTablePointer == old(pageTablePointer)
        invariant j <= |table| && k + |table| == end + j && left == budget + at - k
        invariant pagePointer == if j == |table| then 0 else j
        invariant ScanEnds(algorithm, Pages(), o, k, left, choice)
      {
        var page := table[j];
        var hit := IsVictim(page, o, k);
        if hit {
          return page, left;
        }
        left := left - 1;
        pagePointer := Next(pagePointer, |table|);
        j, k := j + 1, k + 1;
      }
      pageTablePointer := Next(pageTablePointer, |pageTables|);
      victim := null;
    }

    // The pointers stand at entry `at`, at the start of a table or inside it.
    ghost predicate PointsAt(at: nat)
      reads this`pageTables, this`pageTablePointer, this`pagePointer
    {
      && pageTablePointer < |pageTables| && at == Base(Sizes(pageTables), pageTablePointer) + pagePointer
      && (pagePointer == 0 || pagePointer < |pageTables[pageTablePointer]|)
    }

    // The middle loop of find_victim: one round, from the pointers to the last table.
    method SearchRound(o: nat, ghost hand: nat, ghost budget: nat, ghost choice: Choice)
      returns (victim: PageEntry?, ghost left: nat)
      requires Tables() && PointsAt(hand) && hand < |flat|
      requires ScanEnds(algorithm, Pages(), o, hand, budget, choice)
      modifies this`pageTablePointer, this`pagePointer, repr
      ensures victim != null ==>
                && PointsAt(choice.victim) && pagePointer < |pageTables[pageTablePointer]|
                && choice.pages == Pages() && choice.victim < |flat| && victim == flat[choice.victim]
      ensures victim == null ==>
                && pageTablePointer == 0 && pagePointer == 0
                && left < budget && ScanEnds(algorithm, Pages(), o, |flat|, left, choice)
    {
      var tables := pageTables;
      ghost var sizes, at := Sizes(tables), hand;
      left := budget;
      var i := pageTablePointer;
      while i < |tables|
        invariant i <= |tables| && at == Base(sizes, i) + pagePointer && left == budget + hand - at
        invariant pageTablePointer == if i == |tables| then 0 else i
        invariant pagePointer == 0 || (i < |tables| && pagePointer < |tables[i]|)
        invariant ScanEnds(algorithm, Pages(), o, at, left, choice)
      {
        TableAt(i);
        ghost var end := Base(sizes, i + 1);
        victim, left := SearchTable(tables[i], o, at, end, left, choice);
        if victim != null {
          return;
        }
        i, at := i + 1, end;
      }
      assert at == |flat|;
      assert left < budget && ScanEnds(algorithm, Pages(), o, |flat|, left, choice);
      victim := null;
    }

    // The outer loop of find_victim has no bound in its text. `choice` is where the scan of the entries from
    // the hand ends; the loop ends there too, within the scan's limit.
    method SearchRounds(ghost choice: Choice) returns (victim: PageEntry)
      requires Layout() && flat != []
      requires ScanEnds(algorithm, Pages(), 0, Hand(), ScanLimit(algorithm, |flat|), choice)
      modifies this`pageTablePointer, this`pagePointer, repr
      ensures Layout()
      ensures choice == Choice(Hand(), Pages()) && Hand() < |flat| && victim == flat[Hand()]
    {
      ghost var left := ScanLimit(algorithm, |flat|);
      var o := 0;
      while true
        invariant Layout()
        invariant ScanEnds(algorithm, Pages(), o, Hand(), left, choice)
        decreases left
      {
        HandInside();
        var found: PageEntry?;
        found, left := SearchRound(o, Hand(), left, choice);
        if found != null {
          return found;
        }
        o := o + 1;
      }
    }

    // find_victim
    method FindVictim() returns (victim: PageEntry)
      requires Layout() && Has(Resident, Pages())
      modifies this`pageTablePointer, this`pagePointer, repr
      ensures Layout() && Hand() < |flat| && victim == flat[Hand()]
      ensures Choice(Hand(), Pages()) == Clock.FindVictim(algorithm, old(Pages()), old(Hand()))
    {
      ghost var choice := Clock.FindVictim(algorithm, Pages(), Hand());
      ScanFindsVictim(algorithm, Pages(), Hand());
      victim := SearchRounds(choice);
    }

    // write_page_to_swap, with the position taken before the bytes are appended.
    method WritePageToSwap(page: PageEntry, ghost k: nat)
      requires Layout() && Shape(State()) && k < |flat| && flat[k] == page
      requires 0 <= State().pages[k].frame < |framesUsage|
      modifies this`swap, page`swapPos
      ensures Layout() && State() == SwapOut(old(State()), k)
    {
      ghost var before := State();
      ValuesAt(flat, |flat|, repr);
      FrameFits(|framesUsage|, pageSize, page.frame);
      var start := page.frame * pageSize;
      page.swapPos := |swap|;
      swap := swap + ram[start..start + pageSize];
      ValuesAt(flat, |flat|, repr);
      assert Pages() == before.pages[k := page.Value()];
      assert ram[start..start + pageSize] == FrameBytes(before, page.frame);
    }

    // find_free_frame
    method FindFreeFrame() returns (frame: nat)
      requires Valid()
      modifies this`framesUsage, this`swap, this`pageTablePointer, this`pagePointer, repr
      ensures Layout() && (State(), frame) == Paging.FindFreeFrame(old(State())) && latest == old(latest)
    {
      var i := 0;
      while i < |framesUsage|
        invariant i <= |framesUsage| && FirstFree(framesUsage, 0) == FirstFree(framesUsage, i)
      {
        if !framesUsage[i] {
          framesUsage := framesUsage[i := true];
          return i;
        }
        i := i + 1;
      }
      frame := EvictVictim();
    }

    // find_free_frame when every frame is used: replacement.
    method EvictVictim() returns (frame: nat)
      requires Valid() && FirstFree(framesUsage, 0) == |framesUsage|
      modifies this`swap, this`pageTablePointer, this`pagePointer, repr
      ensures Layout() && (State(), frame) == Paging.FindFreeFrame(old(State()))
      ensures var m := old(State());
              && m.hand <= |m.pages| && Victim(m) < |m.pages| && 0 <= m.pages[Victim(m)].frame < |m.used|
              && swap == m.swap + if m.pages[Victim(m)].M then FrameBytes(m, m.pages[Victim(m)].frame) else []
    {
      FrameHandedOver(State());
      VictimExists(State());
      ChoiceEffect(algorithm, Pages(), Hand());
      var victim := FindVictim();
      frame := DropPage(victim, Hand());
    }

    // The victim is no longer present.
    method LeaveFrame(victim: PageEntry, ghost v: nat) returns (frame: int)
      requires Layout() && v < |flat| && victim == flat[v]
      modifies victim
      ensures Layout() && Pages() == old(Pages())[v := old(Pages())[v].(P := false)]
      ensures frame == old(Pages())[v].frame
    {
      ghost var saved := Pages();
      ValuesAt(flat, |flat|, repr);
      victim.P := false;
      ValuesAt(flat, |flat|, repr);
      assert Pages() == saved[v := saved[v].(P := false)];
      frame := victim.frame;
    }

    // Save the victim if it was written, take it out and hand over its frame.
    method DropPage(victim: PageEntry, ghost v: nat) returns (frame: nat)
      requires Layout() && Shape(State()) && v < |flat| && victim == flat[v]
      requires 0 <= State().pages[v].frame < |framesUsage|
      modifies this`swap, victim
      ensures Layout() && State() == Drop(old(State()), v) && frame == old(State()).pages[v].frame
    {
      ValuesAt(flat, |flat|, repr);
      if victim.M {
        WritePageToSwap(victim, v);
      }
      frame := LeaveFrame(victim, v);
    }

    // get_page
    method GetPage(segments: seq<Segment>, segment: nat, page: nat) returns (entry: PageEntry)
      requires Valid() && PageExists(State(), segments, segment, page)
      ensures State() == old(State()) && entry == flat[PageIndex(State(), segments, segment, page)]
    {
      entry := pageTables[segments[segment].table][page];
      EntryAt(segments[segment].table, page);
    }

    // read_page_from_swap: what comes back for a saved page is its latest contents, unless the page is
    // present and was written since.
    method ReadPageFromSwap(page: PageEntry, ghost k: nat) returns (bytes: seq<Byte>)
      requires Valid() && k < |flat| && flat[k] == page && page.swapPos != -1
      ensures 0 <= page.swapPos <= |swap| - pageSize && bytes == Image(State(), page.swapPos)
      ensures !(page.P && page.M) ==> latest[k] == Some(bytes)
      ensures State() == old(State())
    {
      ValuesAt(flat, |flat|, repr);
      assert Kept(State(), k, latest[k]);
      bytes := swap[page.swapPos..page.swapPos + pageSize];
    }

    // memcpy into RAM
    method CopyToRam(address: nat, bytes: seq<Byte>)
      requires address + |bytes| <= ram.Length
      modifies ram
      ensures ram[..] == Put(old(ram[..]), address, bytes)
    {
      forall i | 0 <= i < |bytes| {
        ram[address + i] := bytes[i];
      }
    }

    lemma FaultFacts(m: Mem, t: Latest, k: nat)
      requires Sound(m, t) && k < |m.pages| && !m.pages[k].P
      ensures m.pages[k].swapPos == -1
              || (0 <= m.pages[k].swapPos <= |m.swap| - m.pageSize && t[k] == Some(Image(m, m.pages[k].swapPos)))
      ensures var m1 := Paging.FindFreeFrame(m).0;
              Shape(m1) && |m1.used| == |m.used| && |m1.pages| == |m.pages| && m1.pages[k] == m.pages[k]
    {
      assert Kept(m, k, t[k]);
      FreeFrameSound(m, t);
      FreeFrameShape(m);
    }

    // resolve_page_fault; the frame is what the CPU's TLB is told to drop.
    method ResolvePageFault(segments: seq<Segment>, segment: nat, page: nat) returns (frame: nat)
      requires Valid() && Accepts(State(), PageFault(segments, segment, page))
      modifies this`framesUsage, this`swap, this`pageTablePointer, this`pagePointer, ram, repr
      ensures Valid()
      ensures (State(), frame) == ResolveFault(old(State()), PageIndex(old(State()), segments, segment, page))
    {
      ghost var before, t := State(), latest;
      ghost var k := PageIndex(before, segments, segment, page);
      FaultFacts(before, t, k);
      ResolveFaultSound(before, t, k);
      var entry := GetPage(segments, segment, page);
      ValuesAt(flat, |flat|, repr);
      var image := None;
      if entry.swapPos != -1 {
        var bytes := ReadPageFromSwap(entry, k);
        image := Some(bytes);
      }
      frame := FindFreeFrame();
      Install(entry, k, frame, image);
      assert State() == ResolveFault(before, k).0 && latest == t;
    }

    // The entry takes its frame; a page that comes from disk also gets its image back.
    method Install(entry: PageEntry, ghost k: nat, frame: nat, image: Option<seq<Byte>>)
      requires Layout() && Shape(State()) && k < |flat| && entry == flat[k] && frame < |framesUsage|
      requires image.Some? ==> |image.value| == pageSize
      modifies entry, ram
      ensures Layout() && State() == Installed(old(State()), k, frame, image) && latest == old(latest)
    {
      ghost var before := Pages();
      ValuesAt(flat, |flat|, repr);
      entry.frame := frame;
      entry.P := true;
      if image.Some? {
        entry.M := false;
        entry.U := false;
        FrameFits(|framesUsage|, pageSize, frame);
        CopyToRam(frame * pageSize, image.value);
      }
      ValuesAt(flat, |flat|, repr);
      assert Pages() == before[k := entry.Value()];
    }

    // One table of the search by frame.
    lemma ReverseStep(m: Mem, segments: seq<Segment>, frame: nat, i: nat)
      requires Shape(m) && TablesExist(m, segments) && i < |segments|
      ensures var base := Base(m.sizes, segments[i].table);
              && base + m.sizes[segments[i].table] <= |m.pages|
              && var here := FindInFrame(m.pages, frame, base, base + m.sizes[segments[i].table]);
                 Paging.GetPageReverse(m, segments, frame, i)
                 == if here.Some? then here else Paging.GetPageReverse(m, segments, frame, i + 1)
    {
      BaseMonotone(m.sizes, segments[i].table + 1, |m.sizes|);
    }

    // The inner loop of get_page_reverse.
    method FindInTable(t: nat, frame: nat, ghost m: Mem) returns (entry: PageEntry?, ghost at: Option<nat>)
      requires Layout() && m == State() && t < |m.sizes| && Base(m.sizes, t) + m.sizes[t] <= |m.pages|
      ensures m == State()
      ensures at == FindInFrame(m.pages, frame, Base(m.sizes, t), Base(m.sizes, t) + m.sizes[t])
      ensures if at.Some? then at.value < |flat| && entry == flat[at.value] else entry == null
    {
      var table := pageTables[t];
      ghost var base := Base(m.sizes, t);
      TableAt(t);
      ValuesAt(flat, |flat|, repr);
      var page := 0;
      while page < |table|
        invariant page <= |table|
        invariant FindInFrame(m.pages, frame, base + page, base + |table|)
               == FindInFrame(m.pages, frame, base, base + |table|)
      {
        assert table[page] == flat[base + page];
        if table[page].P && table[page].frame == frame {
          return table[page], Some(base + page);
        }
        page := page + 1;
      }
      entry, at := null, None;
    }

    // get_page_reverse
    method GetPageReverse(segments: seq<Segment>, frame: nat) returns (entry: PageEntry?, ghost at: Option<nat>)
      requires Layout() && Shape(State()) && TablesExist(State(), segments)
      ensures State() == old(State()) && latest == old(latest)
      ensures at == Paging.GetPageReverse(State(), segments, frame)
      ensures if at.Some? then at.value < |flat| && entry == flat[at.value] else entry == null
    {
      ghost var m, found := State(), Paging.GetPageReverse(State(), segments, frame);
      var segment := 0;
      while segment < |segments|
        invariant segment <= |segments| && State() == m
        invariant Paging.GetPageReverse(m, segments, frame, segment) == found
      {
        ReverseStep(m, segments, frame, segment);
        entry, at := FindInTable(segments[segment].table, frame, m);
        if entry != null {
          return;
        }
        segment := segment + 1;
      }
      entry, at := null, None;
    }

    // The inner loop of process_started: the entries of one new table.
    method NewTable(n: nat, ghost base: nat) returns (table: seq<PageEntry>, ghost entries: set<PageEntry>)
      ensures |table| == n && fresh(entries)
      ensures forall j :: 0 <= j < n ==>
                table[j] in entries && table[j].id == base + j && table[j].Value() == FRESH_PAGE
    {
      table, entries := [], {};
      while |table| < n
        invariant |table| <= n && fresh(entries)
        invariant forall j :: 0 <= j < |table| ==>
                    table[j] in entries && table[j].id == base + j && table[j].Value() == FRESH_PAGE
      {
        var page := new PageEntry(base + |table|);
        table := table + [page];
        entries := entries + {page};
      }
    }

    lemma {:induction false} FlattenMore(lists: seq<seq<PageEntry>>, more: seq<PageEntry>, n: nat)
      requires n <= |lists|
      ensures Flatten(lists + [more], n) == Flatten(lists, n)
      decreases n
    {
      if n > 0 { FlattenMore(lists, more, n - 1); }
    }

    lemma AppendFacts(table: seq<PageEntry>)
      requires Layout()
      ensures Sizes(pageTables + [table]) == Sizes(pageTables) + [|table|]
      ensures Flatten(pageTables + [table], |pageTables| + 1) == flat + table
      ensures Base(Sizes(pageTables + [table]), |pageTables| + 1) == |flat| + |table|
      ensures Base(Sizes(pageTables + [table]), pageTablePointer) == Base(Sizes(pageTables), pageTablePointer)
    {
      FlattenMore(pageTables, table, |pageTables|);
      assert Sizes(pageTables + [table]) == Sizes(pageTables) + [|table|];
      BasePrefix(Sizes(pageTables), [|table|], |pageTables|);
      BasePrefix(Sizes(pageTables), [|table|], pageTablePointer);
    }

    // Hang a new table of absent pages at the end of the list.
    method AppendTable(table: seq<PageEntry>, ghost entries: set<PageEntry>)
      requires Layout() && repr !! entries
      requires forall j :: 0 <= j < |table| ==>
                 table[j] in entries && table[j].id == |flat| + j && table[j].Value() == FRESH_PAGE
      modifies this`pageTables, this`flat, this`repr
      ensures Layout() && repr == old(repr) + entries
      ensures pageTables == old(pageTables) + [table] && State() == AddTable(old(State()), |table|)
    {
      ghost var before := State();
      ValuesAt(flat, |flat|, repr);
      AppendFacts(table);
      repr := repr + entries;
      flat := flat + table;
      pageTables := pageTables + [table];
      assert Tables();
      ValuesAt(flat, |flat|, repr);
      assert Pages() == before.pages + FreshPages(|table|);
      assert Hand() == before.hand;
    }

    // process_started
    method ProcessStarted(segmentSizes: seq<nat>) returns (segmentTable: seq<Segment>)
      requires Valid()
      modifies this`pageTables, this`flat, this`repr, this`latest
      ensures Valid() && fresh(repr - old(repr))
      ensures (State(), segmentTable) == StartProcess(old(State()), segmentSizes)
      ensures |old(latest)| <= |flat| && latest == Grown(old(latest), |flat|)
    {
      ghost var before := State();
      StartProcessSound(before, latest, segmentSizes);
      segmentTable := StartTables(segmentSizes);
      latest := Grown(latest, |flat|);
    }

    // The loop of process_started over the segments.
    method StartTables(segmentSizes: seq<nat>) returns (segmentTable: seq<Segment>)
      requires Layout() && pageSize > 0
      modifies this`pageTables, this`flat, this`repr
      ensures Layout() && fresh(repr - old(repr))
      ensures (State(), segmentTable) == StartProcess(old(State()), segmentSizes)
    {
      segmentTable := [];
      var i := 0;
      while i < |segmentSizes|
        invariant i <= |segmentSizes| && Layout() && fresh(repr - old(repr))
        invariant (State(), segmentTable) == StartProcess(old(State()), segmentSizes[..i])
      {
        assert segmentSizes[..i + 1][..i] == segmentSizes[..i];
        var table, entries := NewTable(PagesFor(segmentSizes[i], pageSize), |flat|);
        segmentTable := segmentTable + [Segment(segmentSizes[i], |pageTables|)];
        AppendTable(table, entries);
        i := i + 1;
      }
      assert segmentSizes[..i] == segmentSizes;
    }

    // One page of process_finished.
    method FreeEntry(entry: PageEntry, ghost k: nat)
      requires Layout() && k < |flat| && entry == flat[k]
      modifies this`framesUsage, entry
      ensures Layout() && State() == FreePage(old(State()), k)
    {
      ghost var before := Pages();
      ValuesAt(flat, |flat|, repr);
      if entry.P && 0 <= entry.frame < |framesUsage| {
        framesUsage := framesUsage[entry.frame := false];
      }
      entry.Clear();
      ValuesAt(flat, |flat|, repr);
      assert Pages() == before[k := FRESH_PAGE];
    }

    // The inner loop of process_finished.
    method FreeTable(t: nat)
      requires Layout() && t < |pageTables|
      modifies this`framesUsage, repr
      ensures Layout() && Base(Sizes(pageTables), t) + |pageTables[t]| <= |flat|
      ensures State()
           == FreePages(old(State()), Base(Sizes(pageTables), t), Base(Sizes(pageTables), t) + |pageTables[t]|)
    {
      ghost var before, base := State(), Base(Sizes(pageTables), t);
      TableAt(t);
      var table := pageTables[t];
      var j := 0;
      while j < |table|
        invariant j <= |table| && Layout()
        invariant State() == FreePages(before, base, base + j)
      {
        ghost var k := base + j;
        assert table[j] == flat[k];
        FreeEntry(table[j], k);
        j := j + 1;
      }
    }

    lemma FinishLast(m: Mem, segments: seq<Segment>, front: seq<Segment>, t: nat)
      requires Shape(m) && TablesExist(m, segments) && segments != []
      requires front == segments[..|segments| - 1] && t == segments[|segments| - 1].table
      ensures Base(m.sizes, t) + m.sizes[t] <= |m.pages|
      ensures FinishProcess(m, segments)
           == FreePages(FinishProcess(m, front), Base(m.sizes, t), Base(m.sizes, t) + m.sizes[t])
    {
      BaseMonotone(m.sizes, t + 1, |m.sizes|);
    }

    // The loop of process_finished over the segments.
    method FreeTables(segments: seq<Segment>)
      requires Layout() && Shape(State()) && TablesExist(State(), segments)
      modifies this`framesUsage, repr
      ensures Layout() && State() == FinishProcess(old(State()), segments)
    {
      ghost var before := State();
      var i := 0;
      while i < |segments|
        invariant i <= |segments| && Layout()
        invariant State() == FinishProcess(before, segments[..i])
      {
        assert segments[..i + 1][..i] == segments[..i];
        FinishLast(before, segments[..i + 1], segments[..i], segments[i].table);
        FreeTable(segments[i].table);
        i := i + 1;
      }
      assert segments[..i] == segments;
    }

    // process_finished
    method ProcessFinished(segments: seq<Segment>)
      requires Valid() && TablesExist(State(), segments)
      modifies this`framesUsage, this`latest, repr
      ensures Valid()
      ensures State() == FinishProcess(old(State()), segments) && latest == Forget(old(State()), segments, old(latest))
    {
      ghost var before, t0 := State(), latest;
      FreeTables(segments);
      FinishProcessSound(before, t0, segments);
      latest := Forget(before, segments, t0);
    }

    // The word at a physical address, the page marked as used.
    method ReadWord(entry: PageEntry, ghost k: nat, address: nat) returns (value: Word)
      requires Layout() && k < |flat| && entry == flat[k] && address + 4 <= ram.Length
      modifies entry
      ensures Layout() && (State(), value) == RamRead(old(State()), k, address)
    {
      SetBits(entry, k, false);
      value := FromLe32(ram[address..address + 4]);
      assert ram[address..address + 4] == ram[..][address..address + 4];
    }

    method WriteWord(entry: PageEntry, ghost k: nat, address: nat, value: Word)
      requires Layout() && k < |flat| && entry == flat[k] && address + 4 <= ram.Length
      modifies entry, ram
      ensures Layout() && State() == RamWrite(old(State()), k, address, value) && latest == old(latest)
    {
      SetBits(entry, k, true);
      ghost var pages := Pages();
      CopyToRam(address, Le32(value));
      assert Pages() == pages;
    }

    method SetBits(entry: PageEntry, ghost k: nat, dirty: bool)
      requires Layout() && k < |flat| && entry == flat[k]
      modifies entry
      ensures Layout() && State() == Touch(old(State()), k, dirty)
    {
      ghost var before := Pages();
      ValuesAt(flat, |flat|, repr);
      entry.U := true;
      if dirty {
        entry.M := true;
      }
      ValuesAt(flat, |flat|, repr);
      assert Pages() == before[k := entry.Value()];
    }

    // The page whose word is asked for, and the word's physical address.
    ghost function Target(segments: seq<Segment>, frame: nat, offset: nat): (t: (nat, nat))
      requires Valid() && TablesExist(State(), segments) && Paging.GetPageReverse(State(), segments, frame).Some?
      requires frame < |framesUsage| && offset + 4 <= pageSize
      reads this, ram, repr
      ensures t.0 < |flat| && t.1 == frame * pageSize + offset && t.1 + 4 <= ram.Length
    {
      (Paging.GetPageReverse(State(), segments, frame).value, FrameStart(State(), frame) + offset)
    }

    // ram_access_read
    method RamAccessRead(segments: seq<Segment>, frame: nat, offset: nat) returns (value: Word)
      requires Valid() && TablesExist(State(), segments) && Paging.GetPageReverse(State(), segments, frame).Some?
      requires frame < |framesUsage| && offset + 4 <= pageSize
      modifies repr
      ensures Valid()
      ensures var (k, address) := old(Target(segments, frame, offset));
              (State(), value) == RamRead(old(State()), k, address)
    {
      ghost var before := State();
      ghost var (k, address) := Target(segments, frame, offset);
      var entry, at := GetPageReverse(segments, frame);
      value := ReadWord(entry, k, frame * pageSize + offset);
      RamReadSound(before, latest, k, offset);
    }

    // ram_access_write
    method RamAccessWrite(segments: seq<Segment>, frame: nat, offset: nat, value: Word)
      requires Valid() && TablesExist(State(), segments) && Paging.GetPageReverse(State(), segments, frame).Some?
      requires frame < |framesUsage| && offset + 4 <= pageSize
      modifies this`latest, ram, repr
      ensures Valid()
      ensures var (k, address) := old(Target(segments, frame, offset));
              && State() == RamWrite(old(State()), k, address, value)
              && latest == old(latest)[k := Some(Put(FrameBytes(old(State()), frame), offset, Le32(value)))]
    {
      ghost var before := State();
      ghost var (k, address) := Target(segments, frame, offset);
      ghost var after := RamWrite(before, k, address, value);
      ghost var contents := latest[k := Some(Put(FrameBytes(before, frame), offset, Le32(value)))];
      WordWritten(before, latest, segments, frame, offset, value, k, after, contents);
      latest := contents;
      var entry, at := GetPageReverse(segments, frame);
      var physical := frame * pageSize + offset;
      assert physical == address && State() == before;
      WriteWord(entry, k, physical, value);
    }

    lemma WordWritten(m: Mem, t: Latest, segments: seq<Segment>, frame: nat, offset: nat, value: Word,
                      k: nat, after: Mem, contents: Latest)
      requires Sound(m, t) && TablesExist(m, segments) && Paging.GetPageReverse(m, segments, frame) == Some(k)
      requires frame < |m.used| && offset + 4 <= m.pageSize
      requires after == RamWrite(m, k, FrameStart(m, frame) + offset, value)
      requires contents == t[k := Some(Put(FrameBytes(m, frame), offset, Le32(value)))]
      ensures Shape(after) && Sound(after, contents)
    {
      RamWriteSound(m, t, k, offset, value);
    }

    // frame_access: the frame of a present page, or a page fault
    method FrameAccess(segments: seq<Segment>, segment: nat, page: nat) returns (frame: Option<nat>)
      requires Valid() && Accepts(State(), Request.FrameAccess(segments, segment, page))
      ensures var p := State().pages[PageIndex(State(), segments, segment, page)];
              frame == if p.P then Some(p.frame) else None
    {
      var entry := GetPage(segments, segment, page);
      ValuesAt(flat, |flat|, repr);
      if entry.P {
        frame := Some(entry.frame);
      } else {
        frame := None;
      }
    }
  }
}
