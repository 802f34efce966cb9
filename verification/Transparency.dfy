// Paging does not show: in every run of the machine, each process has the registers, the program
// counter and the memory that its program has when it runs alone on a flat memory of its own.
module Transparency {
  import opened Words
  import opened Clock
  import opened Paging
  import opened PagingRuns
  import opened Mmu
  import opened TlbQueue
  import opened Programs
  import opened Alone
  import opened Machine

  ghost predicate Initial(s: State) {
    && s.entries > 0 && Sound(s.mem, s.latest) && s.mem.sizes == [] && s.tlb == [] && s.processes == []
  }

  // Step i leads from state i to the next. (MachineInv is what Enabled is stated over; every step keeps
  // it, so it rules out no run.)
  ghost predicate Taken(states: seq<State>, steps: seq<Machine.Step>, i: nat)
    requires |states| == |steps| + 1 && i < |steps|
  {
    MachineInv(states[i]) ==> Enabled(states[i], steps[i]) && states[i + 1] == Do(states[i], steps[i])
  }

  ghost predicate IsRun(states: seq<State>, steps: seq<Machine.Step>) {
    && |states| == |steps| + 1 && Initial(states[0])
    && forall i: nat {:trigger Taken(states, steps, i)} :: i < |steps| ==> Taken(states, steps, i)
  }

  // What a step is to one process. An instruction that faults is nothing yet: it will run again.
  ghost function EventsOf(step: Machine.Step, after: State, pid: nat): seq<Alone.Event>
    requires pid < |after.processes|
  {
    var p := after.processes[pid];
    match step
    case Exec(q) => if q != pid || p.fault.Some? then [] else [Ran(LastLoaded(p))]
    case IoDone(q, value) => if q == pid then [Resumed(value)] else []
    case _ => []
  }

  // The register the instruction just executed loaded, if it was a load.
  function LastLoaded(p: Process): Word {
    if 0 < p.core.pc <= |p.program| then
      var action := Decode(p.program[p.core.pc - 1]);
      if action.Some? && action.value.MovIn? then p.core.registers[action.value.target] else 0
    else 0
  }

  // All that happened to a process in the first n steps.
  ghost function History(states: seq<State>, steps: seq<Machine.Step>, n: nat, pid: nat): seq<Alone.Event>
    requires |states| == |steps| + 1 && n <= |steps|
  {
    if n == 0 || pid >= |states[n - 1].processes| || pid >= |states[n].processes| then []
    else History(states, steps, n - 1, pid) + EventsOf(steps[n - 1], states[n], pid)
  }

  function SegmentSizes(segments: seq<Segment>): (sizes: seq<nat>)
    ensures |sizes| == |segments| && forall i :: 0 <= i < |sizes| ==> sizes[i] == segments[i].size
  {
    seq(|segments|, i requires 0 <= i < |segments| => segments[i].size)
  }

  // ---------- Cells ----------

  ghost predicate HasPage(s: State, pid: nat, a: nat)
    requires MachineInv(s)
  {
    && pid < |s.processes| && At(s, a).offset < s.mem.pageSize
    && PageExists(s.mem, s.processes[pid].segments, At(s, a).segment, At(s, a).page)
  }

  ghost function PageOf(s: State, pid: nat, a: nat): (k: nat)
    requires MachineInv(s) && HasPage(s, pid, a)
    ensures k < |s.mem.pages|
  {
    PageIndex(s.mem, s.processes[pid].segments, At(s, a).segment, At(s, a).page)
  }

  // The byte behind a logical address: in the frame of its page, or in the page's image on disk.
  ghost function ByteAt(s: State, pid: nat, a: nat): Byte
    requires MachineInv(s) && HasPage(s, pid, a)
    requires var p := s.mem.pages[PageOf(s, pid, a)]; p.P || p.swapPos != -1
  {
    var p := s.mem.pages[PageOf(s, pid, a)];
    (if p.P then FrameBytes(s.mem, p.frame) else Image(s.mem, p.swapPos))[At(s, a).offset]
  }

  ghost predicate CellKept(s: State, pid: nat, a: nat, value: Byte)
    requires MachineInv(s)
  {
    && HasPage(s, pid, a)
    && var contents := s.latest[PageOf(s, pid, a)];
       contents.Some? && |contents.value| == s.mem.pageSize && contents.value[At(s, a).offset] == value
  }

  ghost predicate CellsKept(s: State, pid: nat, cells: map<nat, Byte>)
    requires MachineInv(s)
  {
    forall a :: a in cells ==> CellKept(s, pid, a, cells[a])
  }

  ghost predicate ByteIs(s: State, pid: nat, a: nat, value: Byte)
    requires MachineInv(s)
  {
    && HasPage(s, pid, a)
    && (s.mem.pages[PageOf(s, pid, a)].P || s.mem.pages[PageOf(s, pid, a)].swapPos != -1)
    && ByteAt(s, pid, a) == value
  }

  // Kept cells are there in RAM or on disk.
  lemma CellsAreThere(s: State, pid: nat, cells: map<nat, Byte>)
    requires MachineInv(s) && CellsKept(s, pid, cells)
    ensures forall a :: a in cells ==> ByteIs(s, pid, a, cells[a])
  {
    forall a | a in cells ensures ByteIs(s, pid, a, cells[a]) {
      var k := PageOf(s, pid, a);
      assert Kept(s.mem, k, s.latest[k]);
    }
  }

  // The process is as the program run alone has it.
  ghost predicate Matches(s: State, pid: nat, ref: Private)
    requires MachineInv(s)
  {
    && pid < |s.processes| && s.processes[pid].core == ref.core
    && (!s.processes[pid].released ==> CellsKept(s, pid, ref.cells))
  }

  lemma CellMoved(s: State, s': State, pid: nat, a: nat, value: Byte)
    requires MachineInv(s) && MachineInv(s') && CellKept(s, pid, a, value)
    requires s'.entries == s.entries && s'.mem.pageSize == s.mem.pageSize && s.mem.sizes <= s'.mem.sizes
    requires pid < |s'.processes| && s'.processes[pid].segments == s.processes[pid].segments
    requires |s.latest| <= |s'.latest| && s'.latest[PageOf(s, pid, a)] == s.latest[PageOf(s, pid, a)]
    ensures CellKept(s', pid, a, value)
  {
    IndexKept(s.mem, s'.mem, s.processes[pid].segments, At(s, a).segment, At(s, a).page);
  }

  // Nothing about the process or the contents of its pages changed.
  lemma CellsMoved(s: State, s': State, pid: nat, cells: map<nat, Byte>)
    requires MachineInv(s) && MachineInv(s') && CellsKept(s, pid, cells)
    requires s'.entries == s.entries && s'.mem.pageSize == s.mem.pageSize && s.mem.sizes <= s'.mem.sizes
    requires pid < |s'.processes| && pid < |s.processes| && s'.processes[pid].segments == s.processes[pid].segments
    requires s.latest <= s'.latest
    ensures CellsKept(s', pid, cells)
  {
    forall a | a in cells ensures CellKept(s', pid, a, cells[a]) {
      CellMoved(s, s', pid, a, cells[a]);
    }
  }

  // ---------- One step ----------

  // Pages of different processes are different pages, and so are different pages of one process.
  lemma OthersPage(s: State, pid: nat, a: nat, q: nat, b: nat)
    requires MachineInv(s) && HasPage(s, pid, a) && HasPage(s, q, b)
    ensures PageOf(s, pid, a) == PageOf(s, q, b) <==>
            pid == q && At(s, a).segment == At(s, b).segment && At(s, a).page == At(s, b).page
  {
    var sa, sb := s.processes[pid].segments, s.processes[q].segments;
    PageIndexInjective(s.mem, sa, At(s, a).segment, At(s, a).page, sb, At(s, b).segment, At(s, b).page);
    if pid == q {
      assert OwnTables(sa);
    } else {
      assert ApartTables(s.processes[if pid < q then pid else q].segments,
                         s.processes[if pid < q then q else pid].segments);
    }
  }

  // The word read is the one its page's latest contents have there.
  lemma ReadsLatest(m: Mem, t: Latest, k: nat, offset: nat, value: Word)
    requires Sound(m, t) && k < |m.pages| && m.pages[k].P && offset + 4 <= m.pageSize && t[k].Some?
    requires value == RamRead(m, k, FrameStart(m, m.pages[k].frame) + offset).1
    ensures |t[k].value| == m.pageSize && Le32(value) == t[k].value[offset..offset + 4]
  {
    assert Kept(m, k, t[k]);
    RamReadSound(m, t, k, offset);
    BytesRoundTrip(t[k].value[offset..offset + 4]);
  }

  // What a process reads back is what it stored.
  lemma LoadMatches(s: State, pid: nat, k: nat, dl: nat, cells: map<nat, Byte>, value: Word)
    requires MachineInv(s) && HasPage(s, pid, dl) && k == PageOf(s, pid, dl) && CellsKept(s, pid, cells)
    requires At(s, dl).offset + 4 <= s.mem.pageSize && s.mem.pages[k].P
    requires value == RamRead(s.mem, k, FrameStart(s.mem, s.mem.pages[k].frame) + At(s, dl).offset).1
    ensures Load(cells, dl, value) == value
  {
    var offset := At(s, dl).offset;
    if s.latest[k].Some? { ReadsLatest(s.mem, s.latest, k, offset, value); }
    forall i | 0 <= i < 4 && dl + i in cells ensures cells[dl + i] == Le32(value)[i] {
      SplitWord(dl, s.entries, s.mem.pageSize, i);
      assert CellKept(s, pid, dl + i, cells[dl + i]);
    }
    LoadAgrees(cells, dl, value);
  }

  // What a process stores is kept, and every other cell it stored stays.
  lemma StoreMatches(s: State, s': State, pid: nat, k: nat, dl: nat, cells: map<nat, Byte>, value: Word)
    requires MachineInv(s) && MachineInv(s') && HasPage(s, pid, dl) && k == PageOf(s, pid, dl)
    requires CellsKept(s, pid, cells)
    requires At(s, dl).offset + 4 <= s.mem.pageSize && s.mem.pages[k].P
    requires s'.entries == s.entries && SamePlaces(s.mem, s'.mem) && SameLayout(s.processes, s'.processes)
    requires s'.latest == s.latest
                              [k := Some(Put(FrameBytes(s.mem, s.mem.pages[k].frame), At(s, dl).offset, Le32(value)))]
    ensures CellsKept(s', pid, Store(cells, dl, value))
  {
    var cells', offset := Store(cells, dl, value), At(s, dl).offset;
    PutAt(FrameBytes(s.mem, s.mem.pages[k].frame), offset, Le32(value));
    assert Kept(s.mem, k, s.latest[k]);
    forall a | a in cells' ensures CellKept(s', pid, a, cells'[a]) {
      if dl <= a < dl + 4 {
        SplitWord(dl, s.entries, s.mem.pageSize, a - dl);
        IndexKept(s.mem, s'.mem, s.processes[pid].segments, At(s, a).segment, At(s, a).page);
      } else {
        assert CellKept(s, pid, a, cells[a]);
        OtherCell(s, s', pid, k, dl, a, value, cells[a]);
      }
    }
  }

  lemma OtherCell(s: State, s': State, pid: nat, k: nat, dl: nat, a: nat, value: Word, byte: Byte)
    requires MachineInv(s) && MachineInv(s') && HasPage(s, pid, dl) && k == PageOf(s, pid, dl)
    requires CellKept(s, pid, a, byte)
    requires At(s, dl).offset + 4 <= s.mem.pageSize && s.mem.pages[k].P && !(dl <= a < dl + 4)
    requires s'.entries == s.entries && SamePlaces(s.mem, s'.mem) && SameLayout(s.processes, s'.processes)
    requires s'.latest == s.latest
                              [k := Some(Put(FrameBytes(s.mem, s.mem.pages[k].frame), At(s, dl).offset, Le32(value)))]
    ensures CellKept(s', pid, a, byte)
  {
    OthersPage(s, pid, a, pid, dl);
    if PageOf(s, pid, a) == k {
      var offset := At(s, dl).offset;
      assert Kept(s.mem, k, s.latest[k]);
      PutAt(FrameBytes(s.mem, s.mem.pages[k].frame), offset, Le32(value));
      if offset <= At(s, a).offset < offset + 4 {
        SplitWord(dl, s.entries, s.mem.pageSize, At(s, a).offset - offset);
        SplitInjective(a, dl + (At(s, a).offset - offset), s.entries, s.mem.pageSize);
        assert false;
      }
      IndexKept(s.mem, s'.mem, s.processes[pid].segments, At(s, a).segment, At(s, a).page);
    } else {
      CellMoved(s, s', pid, a, byte);
    }
  }

  // What the program run alone does with these events.
  function Absorb(program: seq<Instruction>, sizes: seq<nat>, span: nat, ref: Private,
                  events: seq<Alone.Event>): Option<Private>
    requires span > 0 && |events| <= 1
  {
    if events == [] then Some(ref) else Alone.Step(program, sizes, span, ref, events[0])
  }

  ghost predicate Follows(s: State, s': State, step: Machine.Step, pid: nat, ref: Private)
    requires MachineInv(s) && MachineInv(s') && pid < |s.processes| && pid < |s'.processes|
  {
    var p := s.processes[pid];
    var ref' := Absorb(p.program, SegmentSizes(p.segments), Span(s.entries, s.mem.pageSize), ref,
                       EventsOf(step, s', pid));
    && s'.processes[pid].program == p.program && s'.processes[pid].segments == p.segments
    && s'.entries == s.entries && s'.mem.pageSize == s.mem.pageSize
    && ref'.Some? && Matches(s', pid, ref'.value)
  }

  lemma LoadedWord(s: State, pid: nat, action: Action) returns (value: Word)
    requires MachineInv(s) && Reachable(s, pid, action) && action.MovIn?
    ensures var k := Entry(s, pid, action.dl);
            && 0 <= s.mem.pages[k].frame < |s.mem.used| && At(s, action.dl).offset + 4 <= s.mem.pageSize
            && value == RamRead(s.mem, k, FrameStart(s.mem, s.mem.pages[k].frame) + At(s, action.dl).offset).1
    ensures var s' := Move(s, pid, action);
            && s'.processes == SetCore(s, pid, Loaded(s.processes[pid].core, action.target, value))
            && s'.latest == s.latest && s'.entries == s.entries && SamePlaces(s.mem, s'.mem)
  {
    var frame, offset := MoveIsAccess(s, pid, action);
    AccessSound(s, pid, frame, offset, action);
    value := RamRead(s.mem, Entry(s, pid, action.dl), FrameStart(s.mem, frame) + offset).1;
  }

  // A process that loaded the word its flat memory has.
  lemma LoadedFollows(s: State, s': State, pid: nat, action: Action, value: Word, ref: Private)
    requires MachineInv(s) && MachineInv(s') && Matches(s, pid, ref) && NextOf(s, pid) == Some(action) && action.MovIn?
    requires Addressable(s, pid, action.dl) && InSegment(s, pid, At(s, action.dl))
    requires Load(ref.cells, action.dl, value) == value
    requires s'.processes == SetCore(s, pid, Loaded(s.processes[pid].core, action.target, value))
    requires s'.latest == s.latest && s'.entries == s.entries && SamePlaces(s.mem, s'.mem)
    ensures Follows(s, s', Exec(pid), pid, ref)
  {
    CellsMoved(s, s', pid, ref.cells);
  }

  lemma LoadFollows(s: State, pid: nat, ref: Private)
    requires MachineInv(s) && Enabled(s, Exec(pid)) && Matches(s, pid, ref) && NextOf(s, pid).value.MovIn?
    requires Reachable(s, pid, NextOf(s, pid).value) && MachineInv(Move(s, pid, NextOf(s, pid).value))
    ensures Follows(s, Move(s, pid, NextOf(s, pid).value), Exec(pid), pid, ref)
  {
    var action := NextOf(s, pid).value;
    var value := LoadedWord(s, pid, action);
    PageThere(s, pid, action.dl);
    LoadMatches(s, pid, Entry(s, pid, action.dl), action.dl, ref.cells, value);
    LoadedFollows(s, Move(s, pid, action), pid, action, value, ref);
  }

  lemma StoreFollows(s: State, pid: nat, ref: Private)
    requires MachineInv(s) && Enabled(s, Exec(pid)) && Matches(s, pid, ref) && NextOf(s, pid).value.MovOut?
    requires Reachable(s, pid, NextOf(s, pid).value) && MachineInv(Move(s, pid, NextOf(s, pid).value))
    ensures Follows(s, Move(s, pid, NextOf(s, pid).value), Exec(pid), pid, ref)
  {
    var action := NextOf(s, pid).value;
    var s' := Move(s, pid, action);
    var frame, offset := MoveIsAccess(s, pid, action);
    AccessSound(s, pid, frame, offset, action);
    PageThere(s, pid, action.dl);
    StoreMatches(s, s', pid, Entry(s, pid, action.dl), action.dl, ref.cells,
                 s.processes[pid].core.registers[action.source]);
  }

  // A MOV that kills the process or faults.
  lemma StuckFollows(s: State, pid: nat, ref: Private, action: Action)
    requires MachineInv(s) && Enabled(s, Exec(pid)) && Matches(s, pid, ref) && MachineInv(Do(s, Exec(pid)))
    requires NextOf(s, pid) == Some(action) && (action.MovIn? || action.MovOut?) && !Reachable(s, pid, action)
    ensures Follows(s, Do(s, Exec(pid)), Exec(pid), pid, ref)
  {
    if InSegment(s, pid, At(s, action.dl)) {
      PageThere(s, pid, action.dl);
      TranslateRight(s, pid, action.dl);
    }
    CellsMoved(s, Do(s, Exec(pid)), pid, ref.cells);
  }

  // SET, ADD, I/O and EXIT.
  lemma ComputeFollows(s: State, pid: nat, ref: Private, action: Action)
    requires MachineInv(s) && Enabled(s, Exec(pid)) && Matches(s, pid, ref) && MachineInv(Do(s, Exec(pid)))
    requires NextOf(s, pid) == Some(action) && !action.MovIn? && !action.MovOut?
    ensures Follows(s, Do(s, Exec(pid)), Exec(pid), pid, ref)
  {
    CellsMoved(s, Do(s, Exec(pid)), pid, ref.cells);
  }

  // An instruction of the process itself.
  lemma ExecFollows(s: State, pid: nat, ref: Private)
    requires MachineInv(s) && Enabled(s, Exec(pid)) && Matches(s, pid, ref) && MachineInv(Do(s, Exec(pid)))
    ensures Follows(s, Do(s, Exec(pid)), Exec(pid), pid, ref)
  {
    var action := NextOf(s, pid).value;
    if !action.MovIn? && !action.MovOut? {
      ComputeFollows(s, pid, ref, action);
    } else if !Reachable(s, pid, action) {
      StuckFollows(s, pid, ref, action);
    } else if action.MovIn? {
      LoadFollows(s, pid, ref);
    } else {
      StoreFollows(s, pid, ref);
    }
  }

  // The contents of one page of process q changed.
  lemma CellsElsewhere(s: State, s': State, q: nat, b: nat, contents: Option<seq<Byte>>, pid: nat,
                       cells: map<nat, Byte>)
    requires MachineInv(s) && MachineInv(s') && CellsKept(s, pid, cells) && HasPage(s, q, b) && q != pid
    requires s'.entries == s.entries && s'.mem.pageSize == s.mem.pageSize && s.mem.sizes <= s'.mem.sizes
    requires pid < |s'.processes| && pid < |s.processes| && s'.processes[pid].segments == s.processes[pid].segments
    requires s'.latest == s.latest[PageOf(s, q, b) := contents]
    ensures CellsKept(s', pid, cells)
  {
    forall a | a in cells ensures CellKept(s', pid, a, cells[a]) {
      OthersPage(s, pid, a, q, b);
      CellMoved(s, s', pid, a, cells[a]);
    }
  }

  // Another process stores into a page of its own.
  lemma OthersStore(s: State, q: nat, pid: nat, ref: Private)
    requires MachineInv(s) && Enabled(s, Exec(q)) && Matches(s, pid, ref) && NextOf(s, q).value.MovOut? && q != pid
    requires Reachable(s, q, NextOf(s, q).value) && MachineInv(Move(s, q, NextOf(s, q).value))
    ensures Follows(s, Move(s, q, NextOf(s, q).value), Exec(q), pid, ref)
  {
    var action := NextOf(s, q).value;
    var s' := Move(s, q, action);
    var frame, offset := MoveIsAccess(s, q, action);
    PageThere(s, q, action.dl);
    if !s.processes[pid].released {
      CellsElsewhere(s, s', q, action.dl, s'.latest[Entry(s, q, action.dl)], pid, ref.cells);
    }
  }

  // An instruction of another process.
  lemma OthersExec(s: State, q: nat, pid: nat, ref: Private)
    requires MachineInv(s) && Enabled(s, Exec(q)) && Matches(s, pid, ref) && MachineInv(Do(s, Exec(q))) && q != pid
    ensures Follows(s, Do(s, Exec(q)), Exec(q), pid, ref)
  {
    var action, s' := NextOf(s, q).value, Do(s, Exec(q));
    if action.MovOut? && Reachable(s, q, action) {
      OthersStore(s, q, pid, ref);
    } else {
      if action.MovIn? && Reachable(s, q, action) {
        var frame, offset := MoveIsAccess(s, q, action);
      } else if (action.MovIn? || action.MovOut?) && InSegment(s, q, At(s, action.dl)) {
        PageThere(s, q, action.dl);
        TranslateRight(s, q, action.dl);
      }
      if !s.processes[pid].released { CellsMoved(s, s', pid, ref.cells); }
    }
  }

  lemma ReleaseFollows(s: State, q: nat, pid: nat, ref: Private)
    requires MachineInv(s) && Enabled(s, Release(q)) && Matches(s, pid, ref) && MachineInv(Do(s, Release(q)))
    ensures Follows(s, Do(s, Release(q)), Release(q), pid, ref)
  {
    var s' := Do(s, Release(q));
    if q != pid && !s.processes[pid].released {
      forall a | a in ref.cells ensures CellKept(s', pid, a, ref.cells[a]) {
        assert CellKept(s, pid, a, ref.cells[a]);
        NotWithin(s, q, pid, At(s, a).segment, At(s, a).page);
        FinishProcessAt(s.mem, s.latest, s.processes[q].segments, PageOf(s, pid, a));
        CellMoved(s, s', pid, a, ref.cells[a]);
      }
    }
  }

  // Whatever the machine does next, the process goes on as its program alone.
  lemma StepFollows(s: State, step: Machine.Step, pid: nat, ref: Private)
    requires MachineInv(s) && Enabled(s, step) && Matches(s, pid, ref)
    ensures MachineInv(Do(s, step)) && Follows(s, Do(s, step), step, pid, ref)
  {
    StepKeepsInv(s, step);
    var s' := Do(s, step);
    match step
    case Exec(q) => if q == pid { ExecFollows(s, pid, ref); } else { OthersExec(s, q, pid, ref); }
    case Release(q) => ReleaseFollows(s, q, pid, ref);
    case Spawn(program, sizes) =>
      StartProcessSound(s.mem, s.latest, sizes);
      if !s.processes[pid].released { CellsMoved(s, s', pid, ref.cells); }
    case Resolve(q) =>
      FreeFrameShape(s.mem);
      if !s.processes[pid].released { CellsMoved(s, s', pid, ref.cells); }
    case IoDone(q, value) =>
      if !s.processes[pid].released { CellsMoved(s, s', pid, ref.cells); }
  }

  // ---------- Every run ----------

  lemma {:induction false} RunKeepsInv(states: seq<State>, steps: seq<Machine.Step>, n: nat)
    requires IsRun(states, steps) && n < |states|
    ensures MachineInv(states[n])
    decreases n
  {
    if n > 0 {
      RunKeepsInv(states, steps, n - 1);
      assert Taken(states, steps, n - 1);
      StepKeepsInv(states[n - 1], steps[n - 1]);
    }
  }

  // A process just started is its program about to run.
  lemma BornMatches(states: seq<State>, steps: seq<Machine.Step>, n: nat, pid: nat)
    requires IsRun(states, steps) && 0 < n < |states| && MachineInv(states[n - 1]) && MachineInv(states[n])
    requires |states[n - 1].processes| <= pid < |states[n].processes|
    ensures Matches(states[n], pid, Private(START, map[])) && steps[n - 1].Spawn?
    ensures History(states, steps, n, pid) == []
  {
    assert Taken(states, steps, n - 1);
  }

  lemma RunAppend(program: seq<Instruction>, sizes: seq<nat>, span: nat, before: seq<Alone.Event>,
                  events: seq<Alone.Event>)
    requires span > 0 && |events| <= 1 && Alone.Run(program, sizes, span, before).Some?
    ensures Alone.Run(program, sizes, span, before + events)
         == Absorb(program, sizes, span, Alone.Run(program, sizes, span, before).value, events)
  {
    if events == [] {
      assert before + events == before;
    } else {
      assert (before + events)[..|before + events| - 1] == before;
    }
  }

  lemma {:induction false} RunMatches(states: seq<State>, steps: seq<Machine.Step>, n: nat, pid: nat)
      returns (alone: Private)
    requires IsRun(states, steps) && n < |states| && pid < |states[n].processes|
    ensures MachineInv(states[n]) && Matches(states[n], pid, alone)
    ensures var p := states[n].processes[pid];
            Alone.Run(p.program, SegmentSizes(p.segments), Span(states[n].entries, states[n].mem.pageSize),
                      History(states, steps, n, pid)) == Some(alone)
    decreases n
  {
    RunKeepsInv(states, steps, n);
    if n > 0 {
      var s := states[n - 1];
      RunKeepsInv(states, steps, n - 1);
      assert Taken(states, steps, n - 1);
      if pid < |s.processes| {
        alone := RunMatches(states, steps, n - 1, pid);
        StepFollows(s, steps[n - 1], pid, alone);
        var p, events := s.processes[pid], EventsOf(steps[n - 1], states[n], pid);
        RunAppend(p.program, SegmentSizes(p.segments), Span(s.entries, s.mem.pageSize),
                  History(states, steps, n - 1, pid), events);
        alone := Absorb(p.program, SegmentSizes(p.segments), Span(s.entries, s.mem.pageSize), alone, events).value;
      } else {
        BornMatches(states, steps, n, pid);
        alone := Private(START, map[]);
      }
    }
  }

  // The transparency theorem. At any point of any run, with any processes, quantum cuts, page
  // faults, evictions and TLB hits, a process is where its program run alone over the same inputs is,
  // with the registers it would have, and every byte it stored is in its frame or in its image on disk.
  lemma PagingIsTransparent(states: seq<State>, steps: seq<Machine.Step>, n: nat, pid: nat)
      returns (alone: Private)
    requires IsRun(states, steps) && n < |states| && pid < |states[n].processes|
    ensures MachineInv(states[n])
    ensures var p := states[n].processes[pid];
            && Alone.Run(p.program, SegmentSizes(p.segments), Span(states[n].entries, states[n].mem.pageSize),
                         History(states, steps, n, pid)) == Some(alone)
            && p.core == alone.core
            && (!p.released ==> forall a :: a in alone.cells ==> ByteIs(states[n], pid, a, alone.cells[a]))
  {
    alone := RunMatches(states, steps, n, pid);
    if !states[n].processes[pid].released { CellsAreThere(states[n], pid, alone.cells); }
  }

  // So a program that reads only what it wrote ends up the same on any two machines, whatever their
  // frames, algorithms, TLBs and other processes, if it is given the same inputs. Its addresses must
  // mean the same segments on both: the page sizes may differ only if the number of entries per table
  // times the page size does not.
  lemma SameOnAnyMachine(a: seq<State>, aSteps: seq<Machine.Step>, n: nat, pid: nat,
                         b: seq<State>, bSteps: seq<Machine.Step>, m: nat, qid: nat)
    requires IsRun(a, aSteps) && n < |a| && pid < |a[n].processes| && IsRun(b, bSteps) && m < |b|
    requires qid < |b[m].processes|
    requires a[n].entries > 0 && a[n].mem.pageSize > 0 && b[m].entries > 0 && b[m].mem.pageSize > 0
    requires a[n].processes[pid].program == b[m].processes[qid].program
    requires SegmentSizes(a[n].processes[pid].segments) == SegmentSizes(b[m].processes[qid].segments)
    requires Span(a[n].entries, a[n].mem.pageSize) == Span(b[m].entries, b[m].mem.pageSize)
    requires Alike(History(a, aSteps, n, pid), History(b, bSteps, m, qid))
    requires ReadsOwn(a[n].processes[pid].program, SegmentSizes(a[n].processes[pid].segments),
                      Span(a[n].entries, a[n].mem.pageSize), History(a, aSteps, n, pid))
    ensures a[n].processes[pid].core == b[m].processes[qid].core
  {
    var x := PagingIsTransparent(a, aSteps, n, pid);
    var y := PagingIsTransparent(b, bSteps, m, qid);
    OnlyInputsMatter(a[n].processes[pid].program, SegmentSizes(a[n].processes[pid].segments),
                     Span(a[n].entries, a[n].mem.pageSize), History(a, aSteps, n, pid), History(b, bSteps, m, qid));
  }
}
