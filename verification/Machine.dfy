// The whole machine with paging in the way: many processes, one memory server, one TLB. A MOV and
// the resolution of a page fault are each one step, and an invalidation is applied with the fault
// that sends it; a quantum may end after any instruction, so any process may run next.
module Machine {
  import opened Words
  import opened Clock
  import opened Paging
  import opened PagingRuns
  import opened Mmu
  import opened TlbQueue
  import opened Programs
  import opened Alone

  // `fault` is the page the process waits for; `released` says that memoria freed its tables.
  datatype Process = Process(program: seq<Instruction>, segments: seq<Segment>, core: Core,
                             fault: Option<(nat, nat)>, released: bool)

  datatype State = State(mem: Mem, latest: Latest, tlb: seq<Cached>, lru: bool, capacity: nat, entries: nat,
                         processes: seq<Process>)

  datatype Step =
    | Spawn(program: seq<Instruction>, sizes: seq<nat>)
    | Exec(pid: nat)
    | Resolve(pid: nat)
    | IoDone(pid: nat, value: Word)
    | Release(pid: nat)

  // ---------- What always holds ----------

  ghost predicate TablesFit(m: Mem, segments: seq<Segment>)
    requires m.pageSize > 0
  {
    && TablesExist(m, segments)
    && forall i :: 0 <= i < |segments| ==> m.sizes[segments[i].table] == PagesFor(segments[i].size, m.pageSize)
  }

  ghost predicate Separate(processes: seq<Process>) {
    && (forall p :: 0 <= p < |processes| ==> OwnTables(processes[p].segments))
    && forall p, q :: 0 <= p < q < |processes| ==> ApartTables(processes[p].segments, processes[q].segments)
  }

  // A cached translation is what the page tables say, and its process has not exited.
  ghost predicate Translates(m: Mem, processes: seq<Process>, c: Cached)
    requires Shape(m)
  {
    && 0 <= c.key.pid < |processes| && !processes[c.key.pid].core.status.Exited?
    && var segments := processes[c.key.pid].segments;
       && PageExists(m, segments, c.key.segment, c.key.page)
       && Holds(m, PageIndex(m, segments, c.key.segment, c.key.page), c.frame)
  }

  ghost predicate TlbRight(m: Mem, processes: seq<Process>, tlb: seq<Cached>, capacity: nat)
    requires Shape(m)
  {
    && KeysUnique(tlb) && |tlb| <= capacity
    && forall c :: c in tlb ==> Translates(m, processes, c)
  }

  // A process waits for a page only while it is running and the page is absent.
  ghost predicate FaultRight(m: Mem, p: Process)
    requires Shape(m)
  {
    p.fault.Some? ==>
      && p.core.status.Running? && PageExists(m, p.segments, p.fault.value.0, p.fault.value.1)
      && !m.pages[PageIndex(m, p.segments, p.fault.value.0, p.fault.value.1)].P
  }

  ghost predicate MachineInv(s: State) {
    && s.entries > 0 && Sound(s.mem, s.latest)
    && Separate(s.processes)
    && (forall p :: 0 <= p < |s.processes| ==>
          && TablesFit(s.mem, s.processes[p].segments) && FaultRight(s.mem, s.processes[p])
          && (s.processes[p].released ==> s.processes[p].core.status.Exited?))
    && TlbRight(s.mem, s.processes, s.tlb, s.capacity)
  }

  // ---------- mov_execute ----------

  ghost function At(s: State, dl: nat): Address
    requires MachineInv(s)
  {
    Split(dl, s.entries, s.mem.pageSize)
  }

  ghost function NextOf(s: State, pid: nat): Option<Action>
    requires pid < |s.processes|
  {
    if s.processes[pid].fault.Some? then None else Alone.Next(s.processes[pid].program, s.processes[pid].core)
  }

  ghost predicate InSegment(s: State, pid: nat, a: Address)
    requires pid < |s.processes|
  {
    a.segment < |s.processes[pid].segments| && a.segmentOffset < s.processes[pid].segments[a.segment].size
  }

  // Addresses a MOV is allowed here: an existing segment and, past the size check, a word inside its page.
  ghost predicate Addressable(s: State, pid: nat, dl: nat)
    requires MachineInv(s) && pid < |s.processes|
  {
    && At(s, dl).segment < |s.processes[pid].segments|
    && (InSegment(s, pid, At(s, dl)) ==> At(s, dl).offset + 4 <= s.mem.pageSize)
  }

  lemma PageThere(s: State, pid: nat, dl: nat)
    requires MachineInv(s) && pid < |s.processes| && InSegment(s, pid, At(s, dl))
    ensures PageExists(s.mem, s.processes[pid].segments, At(s, dl).segment, At(s, dl).page)
    ensures At(s, dl).offset < s.mem.pageSize
  {
    SplitJoin(dl, s.entries, s.mem.pageSize);
    CheckedPageInTable(dl, s.entries, s.mem.pageSize, s.processes[pid].segments[At(s, dl).segment].size);
  }

  // The page entry of a logical address.
  ghost function Entry(s: State, pid: nat, dl: nat): (k: nat)
    requires MachineInv(s) && pid < |s.processes| && InSegment(s, pid, At(s, dl))
    ensures k < |s.mem.pages|
  {
    PageThere(s, pid, dl);
    PageIndex(s.mem, s.processes[pid].segments, At(s, dl).segment, At(s, dl).page)
  }

  // The TLB first, then the page table; None is a page fault.
  ghost function Translate(s: State, pid: nat, dl: nat): (seq<Cached>, Option<int>)
    requires MachineInv(s) && pid < |s.processes| && InSegment(s, pid, At(s, dl))
  {
    var key := Key(pid, At(s, dl).segment, At(s, dl).page);
    var (q, hit) := Lookup(s.tlb, s.lru, key);
    var page := s.mem.pages[Entry(s, pid, dl)];
    if hit.Some? then (q, Some(hit.value.frame))
    else if !page.P then (q, None)
    else if page.frame < 0 then (q, None)
    else (Insert(q, s.capacity, Cached(key, page.frame)), Some(page.frame))
  }

  ghost function SetCore(s: State, pid: nat, core: Core): (processes: seq<Process>)
    requires pid < |s.processes|
    ensures |processes| == |s.processes|
  {
    s.processes[pid := s.processes[pid].(core := core)]
  }

  // tlb_access: memoria finds the page by its frame and moves the word.
  ghost function RamAccess(s: State, pid: nat, frame: nat, offset: nat, action: Action): State
    requires Shape(s.mem) && |s.latest| == |s.mem.pages| && pid < |s.processes| && (action.MovIn? || action.MovOut?)
    requires TablesExist(s.mem, s.processes[pid].segments)
    requires GetPageReverse(s.mem, s.processes[pid].segments, frame).Some?
    requires frame < |s.mem.used| && offset + 4 <= s.mem.pageSize
  {
    var k := GetPageReverse(s.mem, s.processes[pid].segments, frame).value;
    var address := FrameStart(s.mem, frame) + offset;
    var core := s.processes[pid].core;
    if action.MovIn? then
      var (m', value) := RamRead(s.mem, k, address);
      s.(mem := m', processes := SetCore(s, pid, Loaded(core, action.target, value)))
    else
      var value := core.registers[action.source];
      s.(mem := RamWrite(s.mem, k, address, value),
         latest := s.latest[k := Some(Put(FrameBytes(s.mem, frame), offset, Le32(value)))],
         processes := SetCore(s, pid, core.(pc := core.pc + 1)))
  }

  // A present page is translated to its frame, by the TLB or by the table; only an absent one faults.
  lemma TranslateRight(s: State, pid: nat, dl: nat)
    requires MachineInv(s) && pid < |s.processes| && InSegment(s, pid, At(s, dl))
    requires s.processes[pid].core.status.Running?
    ensures var (tlb, frame) := Translate(s, pid, dl);
            var page := s.mem.pages[Entry(s, pid, dl)];
            && frame == (if page.P then Some(page.frame) else None)
            && TlbRight(s.mem, s.processes, tlb, s.capacity)
  {
    PageThere(s, pid, dl);
    var key := Key(pid, At(s, dl).segment, At(s, dl).page);
    var k := Entry(s, pid, dl);
    FindIn(s.tlb, key);
    var hit := Find(s.tlb, key);
    if hit.Some? {
      assert Translates(s.mem, s.processes, hit.value);
      TlbQueue.AccessKeeps(s.tlb, s.lru, s.capacity, hit.value);
    } else if s.mem.pages[k].P {
      TlbQueue.AccessKeeps(s.tlb, s.lru, s.capacity, Cached(key, s.mem.pages[k].frame));
      assert Translates(s.mem, s.processes, Cached(key, s.mem.pages[k].frame));
    }
  }

  // memoria finds the page again from its frame.
  lemma EntryFound(s: State, pid: nat, dl: nat)
    requires MachineInv(s) && pid < |s.processes| && InSegment(s, pid, At(s, dl)) && s.mem.pages[Entry(s, pid, dl)].P
    ensures var frame := s.mem.pages[Entry(s, pid, dl)].frame;
            && 0 <= frame < |s.mem.used| && TablesExist(s.mem, s.processes[pid].segments)
            && GetPageReverse(s.mem, s.processes[pid].segments, frame) == Some(Entry(s, pid, dl))
  {
    PageThere(s, pid, dl);
    var segments, a := s.processes[pid].segments, At(s, dl);
    assert InTable(s.mem, segments[a.segment].table, Entry(s, pid, dl));
    ReverseIsInverse(s.mem, segments, Entry(s, pid, dl));
  }

  ghost function Move(s: State, pid: nat, action: Action): State
    requires MachineInv(s) && pid < |s.processes| && s.processes[pid].core.status.Running?
    requires (action.MovIn? || action.MovOut?) && Addressable(s, pid, action.dl)
  {
    var a := At(s, action.dl);
    if !InSegment(s, pid, a) then s.(processes := SetCore(s, pid, s.processes[pid].core.(status := Killed)))
    else
      TranslateRight(s, pid, action.dl);
      var (tlb, frame) := Translate(s, pid, action.dl);
      if frame.None? then
        s.(tlb := tlb, processes := s.processes[pid := s.processes[pid].(fault := Some((a.segment, a.page)))])
      else
        EntryFound(s, pid, action.dl);
        assert TablesFit(s.mem, s.processes[pid].segments);
        RamAccess(s, pid, frame.value, a.offset, action).(tlb := tlb)
  }

  // ---------- The steps ----------

  ghost predicate Enabled(s: State, step: Step)
    requires MachineInv(s)
  {
    match step
    case Spawn(_, _) => true
    case Exec(pid) =>
      && pid < |s.processes| && NextOf(s, pid).Some?
      && var action := NextOf(s, pid).value;
         (action.MovIn? || action.MovOut?) ==> Addressable(s, pid, action.dl)
    case Resolve(pid) => pid < |s.processes| && s.processes[pid].fault.Some?
    case IoDone(pid, value) => pid < |s.processes| && Resume(s.processes[pid].core, value).Some?
    case Release(pid) => pid < |s.processes| && s.processes[pid].core.status.Exited? && !s.processes[pid].released
  }

  ghost function FaultEntry(s: State, pid: nat): (k: nat)
    requires MachineInv(s) && pid < |s.processes| && s.processes[pid].fault.Some?
    ensures k < |s.mem.pages| && !s.mem.pages[k].P
  {
    var p := s.processes[pid];
    assert FaultRight(s.mem, p);
    PageIndex(s.mem, p.segments, p.fault.value.0, p.fault.value.1)
  }

  ghost function Do(s: State, step: Step): State
    requires MachineInv(s) && Enabled(s, step)
  {
    match step
    case Spawn(program, sizes) =>
      var (mem, segments) := StartProcess(s.mem, sizes);
      StartProcessSound(s.mem, s.latest, sizes);
      s.(mem := mem, latest := Grown(s.latest, |mem.pages|),
         processes := s.processes + [Process(program, segments, START, None, false)])
    case Exec(pid) =>
      var action := NextOf(s, pid).value;
      if action.MovIn? || action.MovOut? then Move(s, pid, action)
      else s.(tlb := if action.Exit? then Purge(s.tlb, OfPid(pid)) else s.tlb,
              processes := SetCore(s, pid, Compute(s.processes[pid].core, action)))
    case Resolve(pid) =>
      var (mem, frame) := ResolveFault(s.mem, FaultEntry(s, pid));
      s.(mem := mem, tlb := Purge(s.tlb, OfFrame(frame)),
         processes := s.processes[pid := s.processes[pid].(fault := None)])
    case IoDone(pid, value) => s.(processes := SetCore(s, pid, Resume(s.processes[pid].core, value).value))
    case Release(pid) =>
      var segments := s.processes[pid].segments;
      assert TablesFit(s.mem, segments);
      s.(mem := FinishProcess(s.mem, segments), latest := Forget(s.mem, segments, s.latest),
         processes := s.processes[pid := s.processes[pid].(released := true)])
  }

  // ---------- Every step keeps them ----------

  lemma IndexKept(m: Mem, m': Mem, segments: seq<Segment>, segment: nat, page: nat)
    requires Shape(m) && Shape(m') && m.sizes <= m'.sizes && PageExists(m, segments, segment, page)
    ensures PageExists(m', segments, segment, page)
    ensures PageIndex(m', segments, segment, page) == PageIndex(m, segments, segment, page)
  {
    BasePrefix(m.sizes, m'.sizes[|m.sizes|..], segments[segment].table);
    assert m'.sizes == m.sizes + m'.sizes[|m.sizes|..];
  }

  lemma TranslatesKept(m: Mem, processes: seq<Process>, m': Mem, processes': seq<Process>, c: Cached)
    requires Shape(m) && Shape(m') && m.sizes <= m'.sizes && Translates(m, processes, c)
    requires c.key.pid < |processes'| && !processes'[c.key.pid].core.status.Exited?
    requires processes'[c.key.pid].segments == processes[c.key.pid].segments
    requires var k := PageIndex(m, processes[c.key.pid].segments, c.key.segment, c.key.page); Holds(m', k, c.frame)
    ensures Translates(m', processes', c)
  {
    IndexKept(m, m', processes[c.key.pid].segments, c.key.segment, c.key.page);
  }

  lemma FaultKept(m: Mem, m': Mem, p: Process)
    requires Shape(m) && Shape(m') && m.sizes <= m'.sizes && FaultRight(m, p) && |m.pages| <= |m'.pages|
    requires forall k :: 0 <= k < |m.pages| && !m.pages[k].P ==> !m'.pages[k].P
    ensures FaultRight(m', p)
  {
    if p.fault.Some? { IndexKept(m, m', p.segments, p.fault.value.0, p.fault.value.1); }
  }

  // Only registers, counters, statuses and the TLB change.
  ghost predicate SameLayout(a: seq<Process>, b: seq<Process>) {
    |a| == |b| && forall p :: 0 <= p < |a| ==> a[p].segments == b[p].segments && a[p].program == b[p].program
  }

  // The memory may change, but no page changes place.
  ghost predicate SamePlaces(m: Mem, m': Mem) {
    && m'.sizes == m.sizes && m'.pageSize == m.pageSize && |m'.pages| == |m.pages|
    && forall k :: 0 <= k < |m.pages| ==> m'.pages[k].P == m.pages[k].P && m'.pages[k].frame == m.pages[k].frame
  }

  lemma InPlaceKeeps(s: State, s': State)
    requires MachineInv(s) && Sound(s'.mem, s'.latest) && SamePlaces(s.mem, s'.mem)
    requires SameLayout(s.processes, s'.processes)
    requires s'.entries == s.entries && s'.capacity == s.capacity
    requires TlbRight(s.mem, s'.processes, s'.tlb, s'.capacity)
    requires forall p :: 0 <= p < |s'.processes| ==>
               FaultRight(s.mem, s'.processes[p]) && (s'.processes[p].released ==> s'.processes[p].core.status.Exited?)
    ensures MachineInv(s')
  {
    forall p | 0 <= p < |s'.processes|
      ensures TablesFit(s'.mem, s'.processes[p].segments) && FaultRight(s'.mem, s'.processes[p])
    {
      assert TablesFit(s.mem, s.processes[p].segments);
      FaultKept(s.mem, s'.mem, s'.processes[p]);
    }
    forall c | c in s'.tlb ensures Translates(s'.mem, s'.processes, c) {
      assert Translates(s.mem, s'.processes, c);
      TranslatesKept(s.mem, s'.processes, s'.mem, s'.processes, c);
    }
  }

  // Another core for a process that has not exited says nothing new to the TLB.
  lemma TlbSameCores(m: Mem, a: seq<Process>, b: seq<Process>, tlb: seq<Cached>, capacity: nat)
    requires Shape(m) && TlbRight(m, a, tlb, capacity) && SameLayout(a, b)
    requires forall p :: 0 <= p < |a| && b[p].core.status.Exited? ==>
               a[p].core.status.Exited? || (forall c :: c in tlb ==> c.key.pid != p)
    ensures TlbRight(m, b, tlb, capacity)
  {
    forall c | c in tlb ensures Translates(m, b, c) {
      assert Translates(m, a, c);
      TranslatesKept(m, a, m, b, c);
    }
  }

  // The page of an access and the frame it goes through.
  ghost predicate Reachable(s: State, pid: nat, action: Action)
    requires MachineInv(s)
  {
    && pid < |s.processes| && s.processes[pid].core.status.Running? && (action.MovIn? || action.MovOut?)
    && Addressable(s, pid, action.dl) && InSegment(s, pid, At(s, action.dl)) && s.mem.pages[Entry(s, pid, action.dl)].P
  }

  // What such a MOV does, once translated.
  lemma MoveIsAccess(s: State, pid: nat, action: Action) returns (frame: nat, offset: nat)
    requires MachineInv(s) && Reachable(s, pid, action)
    ensures TablesExist(s.mem, s.processes[pid].segments)
    ensures GetPageReverse(s.mem, s.processes[pid].segments, frame) == Some(Entry(s, pid, action.dl))
    ensures frame < |s.mem.used| && offset + 4 <= s.mem.pageSize && offset == At(s, action.dl).offset
    ensures frame == s.mem.pages[Entry(s, pid, action.dl)].frame
    ensures Move(s, pid, action) == RamAccess(s, pid, frame, offset, action).(tlb := Translate(s, pid, action.dl).0)
  {
    frame, offset := s.mem.pages[Entry(s, pid, action.dl)].frame, At(s, action.dl).offset;
    TranslateRight(s, pid, action.dl);
    EntryFound(s, pid, action.dl);
  }

  lemma AccessSound(s: State, pid: nat, frame: nat, offset: nat, action: Action)
    requires MachineInv(s) && pid < |s.processes| && (action.MovIn? || action.MovOut?)
    requires TablesExist(s.mem, s.processes[pid].segments)
    requires GetPageReverse(s.mem, s.processes[pid].segments, frame).Some?
    requires frame < |s.mem.used| && offset + 4 <= s.mem.pageSize
    ensures var s' := RamAccess(s, pid, frame, offset, action);
            Sound(s'.mem, s'.latest) && SamePlaces(s.mem, s'.mem)
  {
    var k := GetPageReverse(s.mem, s.processes[pid].segments, frame).value;
    if action.MovIn? {
      ReadSound(s.mem, s.latest, k, offset);
    } else {
      WriteSound(s.mem, s.latest, k, offset, s.processes[pid].core.registers[action.source]);
    }
  }

  lemma ReadSound(m: Mem, t: Latest, k: nat, offset: nat)
    requires Sound(m, t) && k < |m.pages| && m.pages[k].P && offset + 4 <= m.pageSize
    ensures var m' := RamRead(m, k, FrameStart(m, m.pages[k].frame) + offset).0;
            Sound(m', t) && SamePlaces(m, m')
  {
    RamReadSound(m, t, k, offset);
  }

  lemma WriteSound(m: Mem, t: Latest, k: nat, offset: nat, value: Word)
    requires Sound(m, t) && k < |m.pages| && m.pages[k].P && offset + 4 <= m.pageSize
    ensures var frame := m.pages[k].frame;
            var m' := RamWrite(m, k, FrameStart(m, frame) + offset, value);
            && Sound(m', t[k := Some(Put(FrameBytes(m, frame), offset, Le32(value)))])
            && SamePlaces(m, m')
  {
    RamWriteSound(m, t, k, offset, value);
  }

  lemma AccessKeeps(s: State, pid: nat, action: Action)
    requires MachineInv(s) && Reachable(s, pid, action) && s.processes[pid].fault.None?
    ensures MachineInv(Move(s, pid, action))
  {
    var s' := Move(s, pid, action);
    var frame, offset := MoveIsAccess(s, pid, action);
    AccessSound(s, pid, frame, offset, action);
    TranslateRight(s, pid, action.dl);
    TlbSameCores(s.mem, s.processes, s'.processes, s'.tlb, s.capacity);
    InPlaceKeeps(s, s');
  }

  lemma MoveKeeps(s: State, pid: nat)
    requires MachineInv(s) && Enabled(s, Exec(pid)) && (NextOf(s, pid).value.MovIn? || NextOf(s, pid).value.MovOut?)
    ensures MachineInv(Do(s, Exec(pid)))
  {
    var action, s' := NextOf(s, pid).value, Move(s, pid, NextOf(s, pid).value);
    if Reachable(s, pid, action) {
      AccessKeeps(s, pid, action);
    } else {
      if InSegment(s, pid, At(s, action.dl)) {
        PageThere(s, pid, action.dl);
        TranslateRight(s, pid, action.dl);
      }
      TlbSameCores(s.mem, s.processes, s'.processes, s'.tlb, s.capacity);
      InPlaceKeeps(s, s');
    }
  }

  lemma ComputeKeeps(s: State, pid: nat)
    requires MachineInv(s) && Enabled(s, Exec(pid)) && !NextOf(s, pid).value.MovIn? && !NextOf(s, pid).value.MovOut?
    ensures MachineInv(Do(s, Exec(pid)))
  {
    var action, s' := NextOf(s, pid).value, Do(s, Exec(pid));
    PurgeIn(s.tlb, OfPid(pid));
    PurgeUnique(s.tlb, OfPid(pid));
    TlbSameCores(s.mem, s.processes, s'.processes, s'.tlb, s.capacity);
    InPlaceKeeps(s, s');
  }

  lemma IoKeeps(s: State, pid: nat, value: Word)
    requires MachineInv(s) && Enabled(s, IoDone(pid, value))
    ensures MachineInv(Do(s, IoDone(pid, value)))
  {
    var s' := Do(s, IoDone(pid, value));
    TlbSameCores(s.mem, s.processes, s'.processes, s'.tlb, s.capacity);
    InPlaceKeeps(s, s');
  }

  // The tables of a new process are nobody else's.
  lemma SpawnSeparate(s: State, p: Process)
    requires MachineInv(s)
    requires forall i :: 0 <= i < |p.segments| ==> p.segments[i].table == |s.mem.sizes| + i
    ensures Separate(s.processes + [p])
  {
    forall q | 0 <= q < |s.processes| ensures ApartTables(s.processes[q].segments, p.segments) {
      assert TablesFit(s.mem, s.processes[q].segments);
    }
  }

  lemma SpawnKeeps(s: State, program: seq<Instruction>, sizes: seq<nat>)
    requires MachineInv(s)
    ensures MachineInv(Do(s, Spawn(program, sizes)))
  {
    var s' := Do(s, Spawn(program, sizes));
    StartProcessSound(s.mem, s.latest, sizes);
    forall p | 0 <= p < |s'.processes|
      ensures TablesFit(s'.mem, s'.processes[p].segments) && FaultRight(s'.mem, s'.processes[p])
    {
      if p < |s.processes| {
        assert TablesFit(s.mem, s.processes[p].segments);
        FaultKept(s.mem, s'.mem, s.processes[p]);
      }
    }
    SpawnSeparate(s, s'.processes[|s.processes|]);
    forall c | c in s'.tlb ensures Translates(s'.mem, s'.processes, c) {
      assert Translates(s.mem, s.processes, c);
      TranslatesKept(s.mem, s.processes, s'.mem, s'.processes, c);
    }
  }

  // The entries that survive the invalidation are still right.
  lemma ResolveTlb(s: State, pid: nat)
    requires MachineInv(s) && Enabled(s, Resolve(pid))
    ensures var s' := Do(s, Resolve(pid)); Shape(s'.mem) && TlbRight(s'.mem, s'.processes, s'.tlb, s'.capacity)
  {
    var s', k := Do(s, Resolve(pid)), FaultEntry(s, pid);
    var frame := ResolveFault(s.mem, k).1;
    ResolveFaultSound(s.mem, s.latest, k);
    FreeFrameShape(s.mem);
    PurgeIn(s.tlb, OfFrame(frame));
    PurgeUnique(s.tlb, OfFrame(frame));
    forall c | c in s'.tlb ensures Translates(s'.mem, s'.processes, c) {
      assert Translates(s.mem, s.processes, c);
      var j := PageIndex(s.mem, s.processes[c.key.pid].segments, c.key.segment, c.key.page);
      ResolveFaultEffect(s.mem, k, j);
      TranslatesKept(s.mem, s.processes, s'.mem, s'.processes, c);
    }
  }

  lemma ResolveKeeps(s: State, pid: nat)
    requires MachineInv(s) && Enabled(s, Resolve(pid))
    ensures MachineInv(Do(s, Resolve(pid)))
  {
    var s', k := Do(s, Resolve(pid)), FaultEntry(s, pid);
    ResolveFaultSound(s.mem, s.latest, k);
    FreeFrameShape(s.mem);
    ResolveTlb(s, pid);
    forall p | 0 <= p < |s'.processes|
      ensures TablesFit(s'.mem, s'.processes[p].segments) && FaultRight(s'.mem, s'.processes[p])
    {
      assert TablesFit(s.mem, s.processes[p].segments) && FaultRight(s.mem, s.processes[p]);
      if p != pid { OthersFault(s, pid, p); }
    }
  }

  // Two processes never wait for one page, and what the others wait for stays absent.
  lemma OthersFault(s: State, pid: nat, p: nat)
    requires MachineInv(s) && Enabled(s, Resolve(pid)) && p < |s.processes| && p != pid
    ensures var m' := ResolveFault(s.mem, FaultEntry(s, pid)).0; Shape(m') && FaultRight(m', s.processes[p])
  {
    var k, q := FaultEntry(s, pid), s.processes[p];
    ResolveFaultSound(s.mem, s.latest, k);
    FreeFrameShape(s.mem);
    assert FaultRight(s.mem, q) && FaultRight(s.mem, s.processes[pid]);
    if q.fault.Some? {
      assert ApartTables(s.processes[if p < pid then p else pid].segments,
                         s.processes[if p < pid then pid else p].segments);
      PageIndexInjective(s.mem, q.segments, q.fault.value.0, q.fault.value.1,
                         s.processes[pid].segments, s.processes[pid].fault.value.0, s.processes[pid].fault.value.1);
      ResolveFaultEffect(s.mem, k, FaultEntry(s, p));
      IndexKept(s.mem, ResolveFault(s.mem, k).0, q.segments, q.fault.value.0, q.fault.value.1);
    }
  }

  // A page of a process is in no table of another.
  lemma NotWithin(s: State, pid: nat, p: nat, segment: nat, page: nat)
    requires MachineInv(s) && pid < |s.processes| && p < |s.processes| && p != pid
    requires PageExists(s.mem, s.processes[p].segments, segment, page)
    ensures TablesExist(s.mem, s.processes[pid].segments)
    ensures !Within(s.mem, s.processes[pid].segments, PageIndex(s.mem, s.processes[p].segments, segment, page))
  {
    var a, b := s.processes[pid].segments, s.processes[p].segments;
    assert TablesFit(s.mem, a);
    assert ApartTables(s.processes[if p < pid then p else pid].segments,
                       s.processes[if p < pid then pid else p].segments);
    var k := PageIndex(s.mem, b, segment, page);
    forall i | 0 <= i < |a| ensures !InTable(s.mem, a[i].table, k) {
      if InTable(s.mem, a[i].table, k) {
        PageIndexInjective(s.mem, a, i, k - Base(s.mem.sizes, a[i].table), b, segment, page);
      }
    }
  }

  lemma ReleaseKeeps(s: State, pid: nat)
    requires MachineInv(s) && Enabled(s, Release(pid))
    ensures MachineInv(Do(s, Release(pid)))
  {
    var s', segments := Do(s, Release(pid)), s.processes[pid].segments;
    assert TablesFit(s.mem, segments);
    FinishProcessSound(s.mem, s.latest, segments);
    forall c | c in s'.tlb ensures Translates(s'.mem, s'.processes, c) {
      assert Translates(s.mem, s.processes, c);
      var k := PageIndex(s.mem, s.processes[c.key.pid].segments, c.key.segment, c.key.page);
      NotWithin(s, pid, c.key.pid, c.key.segment, c.key.page);
      FinishProcessAt(s.mem, s.latest, segments, k);
      TranslatesKept(s.mem, s.processes, s'.mem, s'.processes, c);
    }
    forall p | 0 <= p < |s'.processes|
      ensures TablesFit(s'.mem, s'.processes[p].segments) && FaultRight(s'.mem, s'.processes[p])
    {
      assert TablesFit(s.mem, s.processes[p].segments) && FaultRight(s.mem, s.processes[p]);
      var q := s.processes[p];
      if q.fault.Some? {
        FinishProcessAt(s.mem, s.latest, segments, FaultEntry(s, p));
        IndexKept(s.mem, s'.mem, q.segments, q.fault.value.0, q.fault.value.1);
      }
    }
  }

  lemma StepKeepsInv(s: State, step: Step)
    requires MachineInv(s) && Enabled(s, step)
    ensures MachineInv(Do(s, step))
  {
    match step
    case Spawn(program, sizes) => SpawnKeeps(s, program, sizes);
    case Exec(pid) =>
      if NextOf(s, pid).value.MovIn? || NextOf(s, pid).value.MovOut? {
        MoveKeeps(s, pid);
      } else {
        ComputeKeeps(s, pid);
      }
    case Resolve(pid) => ResolveKeeps(s, pid);
    case IoDone(pid, value) => IoKeeps(s, pid, value);
    case Release(pid) => ReleaseKeeps(s, pid);
  }

  // Of a process killed by a segmentation fault memoria is not told: nothing changes it any more, and its
  // tables are never freed.
  lemma KilledStays(s: State, step: Step, pid: nat)
    requires MachineInv(s) && Enabled(s, step) && pid < |s.processes|
    requires s.processes[pid].core.status == Killed && !s.processes[pid].released
    ensures pid < |Do(s, step).processes| && Do(s, step).processes[pid] == s.processes[pid]
  {
    assert FaultRight(s.mem, s.processes[pid]);
    if step.Exec? {
      var q, action := step.pid, NextOf(s, step.pid).value;
      if (action.MovIn? || action.MovOut?) && InSegment(s, q, At(s, action.dl)) {
        PageThere(s, q, action.dl);
        TranslateRight(s, q, action.dl);
        if Reachable(s, q, action) { var frame, offset := MoveIsAccess(s, q, action); }
      }
    }
  }
}
