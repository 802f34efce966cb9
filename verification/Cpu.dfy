// The CPU as it runs: one MOV through MMU, TLB and memoria, and the instruction cycle of a dispatch.
// Both are tied to the machine of module Machine: `s` is the whole state of which the CPU holds a part.
module Cpu {
  import opened Words
  import opened Paging
  import opened PagingRuns
  import opened MemoryServer
  import opened Mmu
  import opened TlbQueue
  import opened TlbUnit
  import opened Programs
  import opened Alone
  import opened Machine
  import opened Dispatch

  // A t_pcb.
  class Pcb {
    const id: nat
    const instructions: seq<Instruction>
    const segmentTable: seq<Segment>
    var programCounter: nat
    var registers: RegisterFile
    var interruptType: Interrupt

    // The PCB part of create_process, the counter starting at 0.
    constructor (id: nat, instructions: seq<Instruction>, segmentTable: seq<Segment>)
      ensures this.id == id && Carries(Process(instructions, segmentTable, START, None, false))
      ensures interruptType == NO_INTERRUPT
    {
      this.id, this.instructions, this.segmentTable := id, instructions, segmentTable;
      programCounter, registers, interruptType := 0, [0, 0, 0, 0], NO_INTERRUPT;
    }

    // The registers and counter of process p are here.
    ghost predicate Carries(p: Process)
      reads this`programCounter, this`registers
    {
      && p.program == instructions && p.segments == segmentTable
      && p.core.registers == registers && p.core.pc == programCounter
    }
  }

  class Cpu {
    const memory: Memory
    const tlb: Tlb
    const inputsTableMemory: nat
    var interruptionIoPf: Interrupt
    var pfSegment: nat
    var pfPage: nat
    var device: string
    var ioValue: Int32

    constructor (memory: Memory, inputsTableMemory: nat, lru: bool, inputsTlb: nat)
      requires memory.Valid() && inputsTableMemory > 0
      ensures this.memory == memory && fresh(tlb)
      ensures var s := State(memory.State(), memory.latest, [], lru, inputsTlb, inputsTableMemory, []);
              HasMemory(s) && HasTlb(s)
    {
      this.memory, this.inputsTableMemory := memory, inputsTableMemory;
      tlb := new Tlb(lru, inputsTlb);
      interruptionIoPf, pfSegment, pfPage, device, ioValue := NO_INTERRUPT, 0, 0, "", 0;
    }

    // The memory is that of s.
    ghost predicate HasMemory(s: State)
      reads memory, memory.ram, memory.repr
    {
      && memory.Valid()
      && s.mem == memory.State() && s.latest == memory.latest && s.entries == inputsTableMemory
    }

    ghost predicate HasTlb(s: State)
      reads tlb
    {
      tlb.Valid() && s.tlb == tlb.Queue() && s.lru == tlb.lru && s.capacity == tlb.inputsTlb
    }

    // The process is one of s, and its registers and counter are in the PCB.
    ghost predicate Runs(s: State, pcb: Pcb)
      reads pcb
    {
      pcb.id < |s.processes| && pcb.Carries(s.processes[pcb.id])
    }

    // request_data_in
    method RequestDataIn(pcb: Pcb, frame: nat, pageOffset: nat, target: Register)
      requires memory.Valid() && TablesExist(memory.State(), pcb.segmentTable)
      requires GetPageReverse(memory.State(), pcb.segmentTable, frame).Some?
      requires frame < |memory.framesUsage| && pageOffset + 4 <= memory.pageSize
      modifies memory.repr, pcb`registers, pcb`programCounter
      ensures memory.Valid()
      ensures var (k, address) := old(memory.Target(pcb.segmentTable, frame, pageOffset));
              var (m', value) := RamRead(old(memory.State()), k, address);
              memory.State() == m' && pcb.registers == old(pcb.registers)[target := value]
      ensures pcb.programCounter == old(pcb.programCounter) + 1
    {
      var value := memory.RamAccessRead(pcb.segmentTable, frame, pageOffset);
      pcb.registers := pcb.registers[target := value];
      pcb.programCounter := pcb.programCounter + 1;
    }

    // request_data_out
    method RequestDataOut(pcb: Pcb, frame: nat, pageOffset: nat, source: Register)
      requires memory.Valid() && TablesExist(memory.State(), pcb.segmentTable)
      requires GetPageReverse(memory.State(), pcb.segmentTable, frame).Some?
      requires frame < |memory.framesUsage| && pageOffset + 4 <= memory.pageSize
      modifies memory`latest, memory.ram, memory.repr, pcb`programCounter
      ensures memory.Valid()
      ensures var (k, address) := old(memory.Target(pcb.segmentTable, frame, pageOffset));
              && memory.State() == RamWrite(old(memory.State()), k, address, pcb.registers[source])
              && memory.latest == old(memory.latest)
                   [k := Some(Put(FrameBytes(old(memory.State()), frame), pageOffset, Le32(pcb.registers[source])))]
      ensures pcb.programCounter == old(pcb.programCounter) + 1
    {
      memory.RamAccessWrite(pcb.segmentTable, frame, pageOffset, pcb.registers[source]);
      pcb.programCounter := pcb.programCounter + 1;
    }

    // The memory, and the registers and counter of the process, are left as in s.
    ghost predicate Leaves(s: State, pcb: Pcb)
      requires memory.Valid()
      reads memory, memory.ram, memory.repr, pcb
    {
      memory.State() == s.mem && memory.latest == s.latest && Runs(s, pcb)
    }

    method Load(pcb: Pcb, frame: nat, pageOffset: nat, target: Register, ghost s: State, ghost action: Action)
      requires HasMemory(s) && Runs(s, pcb) && TablesExist(s.mem, pcb.segmentTable)
      requires action.MovIn? && action.target == target
      requires GetPageReverse(s.mem, s.processes[pcb.id].segments, frame).Some?
      requires frame < |s.mem.used| && pageOffset + 4 <= s.mem.pageSize
      modifies memory`latest, memory.ram, memory.repr, pcb`registers, pcb`programCounter
      ensures memory.Valid() && Leaves(RamAccess(s, pcb.id, frame, pageOffset, action), pcb)
    {
      RequestDataIn(pcb, frame, pageOffset, target);
    }

    method Store(pcb: Pcb, frame: nat, pageOffset: nat, source: Register, ghost s: State, ghost action: Action)
      requires HasMemory(s) && Runs(s, pcb) && TablesExist(s.mem, pcb.segmentTable)
      requires action.MovOut? && action.source == source
      requires GetPageReverse(s.mem, s.processes[pcb.id].segments, frame).Some?
      requires frame < |s.mem.used| && pageOffset + 4 <= s.mem.pageSize
      modifies memory`latest, memory.ram, memory.repr, pcb`registers, pcb`programCounter
      ensures memory.Valid() && Leaves(RamAccess(s, pcb.id, frame, pageOffset, action), pcb)
    {
      ghost var s' := RamAccess(s, pcb.id, frame, pageOffset, action);
      ghost var (k, address) := memory.Target(pcb.segmentTable, frame, pageOffset);
      assert s'.mem == RamWrite(s.mem, k, address, pcb.registers[source]);
      RequestDataOut(pcb, frame, pageOffset, source);
      assert memory.State() == s'.mem;
    }

    // tlb_access
    method TlbAccess(pcb: Pcb, frame: nat, pageOffset: nat, reg: Register, isIn: bool, ghost s: State,
                     ghost action: Action)
      requires HasMemory(s) && Runs(s, pcb) && TablesExist(s.mem, pcb.segmentTable)
      requires (if isIn then action.MovIn? && action.target == reg else action.MovOut? && action.source == reg)
      requires GetPageReverse(s.mem, s.processes[pcb.id].segments, frame).Some?
      requires frame < |s.mem.used| && pageOffset + 4 <= s.mem.pageSize
      modifies memory`latest, memory.ram, memory.repr, pcb`registers, pcb`programCounter
      ensures memory.Valid() && Leaves(RamAccess(s, pcb.id, frame, pageOffset, action), pcb)
    {
      if isIn {
        Load(pcb, frame, pageOffset, reg, s, action);
      } else {
        Store(pcb, frame, pageOffset, reg, s, action);
      }
    }

    // pf_occurred
    method PfOccurred(segment: nat, page: nat)
      modifies this`interruptionIoPf, this`pfSegment, this`pfPage
      ensures interruptionIoPf == INT_PAGE_FAULT && pfSegment == segment && pfPage == page
    {
      interruptionIoPf, pfSegment, pfPage := INT_PAGE_FAULT, segment, page;
    }

    // memoria finds a page of the process by this frame.
    ghost predicate FoundAgain(s: State, pcb: Pcb, frame: int)
      requires Shape(s.mem) && TablesExist(s.mem, pcb.segmentTable)
    {
      0 <= frame < |s.mem.used| && GetPageReverse(s.mem, pcb.segmentTable, frame).Some?
    }

    // The word was moved, and the TLB is as after one access.
    ghost predicate Moved(s: State, pcb: Pcb, a: Address, action: Action, frame: int)
      requires Shape(s.mem) && |s.latest| == |s.mem.pages| && TablesExist(s.mem, pcb.segmentTable)
      requires FoundAgain(s, pcb, frame) && pcb.id < |s.processes| && s.processes[pcb.id].segments == pcb.segmentTable
      requires (action.MovIn? || action.MovOut?) && a.offset + 4 <= s.mem.pageSize
      reads memory, memory.ram, memory.repr, tlb, pcb
    {
      && memory.Valid() && Leaves(RamAccess(s, pcb.id, frame, a.offset, action), pcb)
      && tlb.Valid()
      && tlb.Queue() == TlbQueue.Access(s.tlb, s.lru, s.capacity, Cached(Key(pcb.id, a.segment, a.page), frame))
    }

    // Nothing was, and the page is noted.
    ghost predicate Faulted(s: State, pcb: Pcb, a: Address)
      reads this, memory, memory.ram, memory.repr, tlb, pcb
    {
      && memory.Valid() && Leaves(s, pcb) && tlb.Valid() && tlb.Queue() == s.tlb
      && interruptionIoPf == INT_PAGE_FAULT && pfSegment == a.segment && pfPage == a.page
    }

    // memoria answered with a frame: into the TLB with it, then the access.
    method Cache(pcb: Pcb, a: Address, frame: nat, reg: Register, isIn: bool, ghost s: State, ghost action: Action)
      requires HasMemory(s) && HasTlb(s) && Runs(s, pcb) && TablesExist(s.mem, pcb.segmentTable)
      requires if isIn then action.MovIn? && action.target == reg else action.MovOut? && action.source == reg
      requires a.offset + 4 <= s.mem.pageSize && FoundAgain(s, pcb, frame)
      requires Find(s.tlb, Key(pcb.id, a.segment, a.page)).None?
      modifies memory`latest, memory.ram, memory.repr, pcb`registers, pcb`programCounter, tlb
      ensures Moved(s, pcb, a, action, frame)
    {
      ghost var c := Cached(Key(pcb.id, a.segment, a.page), frame);
      assert TlbQueue.Access(s.tlb, s.lru, s.capacity, c) == Insert(s.tlb, s.capacity, c);
      tlb.InsertFrame(Cached(Key(pcb.id, a.segment, a.page), frame));
      TlbAccess(pcb, frame, a.offset, reg, isIn, s, action);
    }

    // The branch of a miss: ask memoria for the frame.
    method Miss(pcb: Pcb, a: Address, reg: Register, isIn: bool, ghost s: State, ghost action: Action, ghost k: nat)
      requires HasMemory(s) && HasTlb(s) && Runs(s, pcb) && PageExists(s.mem, pcb.segmentTable, a.segment, a.page)
      requires if isIn then action.MovIn? && action.target == reg else action.MovOut? && action.source == reg
      requires a.offset + 4 <= s.mem.pageSize && k == PageIndex(s.mem, pcb.segmentTable, a.segment, a.page)
      requires s.mem.pages[k].P ==> FoundAgain(s, pcb, s.mem.pages[k].frame)
      requires Find(s.tlb, Key(pcb.id, a.segment, a.page)).None?
      modifies this`interruptionIoPf, this`pfSegment, this`pfPage
      modifies memory`latest, memory.ram, memory.repr, pcb`registers, pcb`programCounter, tlb
      ensures s.mem.pages[k].P ==> Moved(s, pcb, a, action, s.mem.pages[k].frame)
      ensures s.mem.pages[k].P ==> interruptionIoPf == old(interruptionIoPf)
      ensures !s.mem.pages[k].P ==> Faulted(s, pcb, a)
    {
      var reply := memory.FrameAccess(pcb.segmentTable, a.segment, a.page);
      if reply.Some? {
        Cache(pcb, a, reply.value, reg, isIn, s, action);
      } else {
        PfOccurred(a.segment, a.page);
      }
    }

    // The branch of a hit.
    method Held(pcb: Pcb, a: Address, frame: nat, reg: Register, isIn: bool, ghost s: State, ghost action: Action)
      requires HasMemory(s) && Runs(s, pcb) && TablesExist(s.mem, pcb.segmentTable) && tlb.Valid()
      requires if isIn then action.MovIn? && action.target == reg else action.MovOut? && action.source == reg
      requires a.offset + 4 <= s.mem.pageSize && FoundAgain(s, pcb, frame)
      requires tlb.Queue() == TlbQueue.Access(s.tlb, s.lru, s.capacity, Cached(Key(pcb.id, a.segment, a.page), frame))
      modifies memory`latest, memory.ram, memory.repr, pcb`registers, pcb`programCounter
      ensures Moved(s, pcb, a, action, frame)
    {
      TlbAccess(pcb, frame, a.offset, reg, isIn, s, action);
    }

    // Under the TLB lock: a hit, or a miss.
    method Reach(pcb: Pcb, a: Address, reg: Register, isIn: bool, ghost s: State, ghost action: Action, ghost k: nat)
      requires HasMemory(s) && HasTlb(s) && Runs(s, pcb) && PageExists(s.mem, pcb.segmentTable, a.segment, a.page)
      requires if isIn then action.MovIn? && action.target == reg else action.MovOut? && action.source == reg
      requires a.offset + 4 <= s.mem.pageSize && k == PageIndex(s.mem, pcb.segmentTable, a.segment, a.page)
      requires s.mem.pages[k].P ==> FoundAgain(s, pcb, s.mem.pages[k].frame)
      requires var hit := Find(s.tlb, Key(pcb.id, a.segment, a.page));
               hit.Some? ==> s.mem.pages[k].P && hit.value.frame == s.mem.pages[k].frame
      modifies this`interruptionIoPf, this`pfSegment, this`pfPage
      modifies memory`latest, memory.ram, memory.repr, pcb`registers, pcb`programCounter, tlb
      ensures s.mem.pages[k].P ==> Moved(s, pcb, a, action, s.mem.pages[k].frame)
      ensures s.mem.pages[k].P ==> interruptionIoPf == old(interruptionIoPf)
      ensures !s.mem.pages[k].P ==> Faulted(s, pcb, a)
    {
      var frame := tlb.CheckTlb(Key(pcb.id, a.segment, a.page));
      if frame != -1 {
        Held(pcb, a, frame, reg, isIn, s, action);
      } else {
        Miss(pcb, a, reg, isIn, s, action, k);
      }
    }

    // The page or the device the process waits for is noted.
    ghost predicate Noted(p: Process)
      reads this`pfSegment, this`pfPage, this`device, this`ioValue
    {
      && (p.fault.Some? ==> p.fault.value == (pfSegment, pfPage))
      && (p.core.status.Waiting? ==> p.core.status == Waiting(device, ioValue))
    }

    // What the CPU knows of how an instruction left the process.
    ghost predicate Signals(p: Process, pcb: Pcb)
      reads this`interruptionIoPf, this`pfSegment, this`pfPage, this`device, this`ioValue, pcb`interruptType
    {
      && (if pcb.interruptType == EXECUTION_FINISHED then Raised(p) == EXECUTION_FINISHED
          else pcb.interruptType == NO_INTERRUPT && interruptionIoPf == Raised(p))
      && Noted(p)
    }

    ghost predicate Left(s: State, pcb: Pcb)
      reads this, memory, memory.ram, memory.repr, pcb, tlb
    {
      memory.Valid() && Leaves(s, pcb) && HasTlb(s) && Signals(s.processes[pcb.id], pcb)
    }

    // What the machine's MOV comes to inside the segment: s' is s after the access to a present page,
    // or s with a process that waits for the page.
    static ghost predicate Comes(s: State, pid: nat, a: Address, k: nat, action: Action, s': State)
      requires pid < |s.processes| && Shape(s.mem) && |s.latest| == |s.mem.pages| && (action.MovIn? || action.MovOut?)
    {
      var segments, key := s.processes[pid].segments, Key(pid, a.segment, a.page);
      && PageExists(s.mem, segments, a.segment, a.page) && a.offset + 4 <= s.mem.pageSize
      && k == PageIndex(s.mem, segments, a.segment, a.page)
      && var page, hit := s.mem.pages[k], Find(s.tlb, key);
         && (hit.Some? ==> page.P && hit.value.frame == page.frame)
         && (if page.P then
               && 0 <= page.frame < |s.mem.used| && GetPageReverse(s.mem, segments, page.frame).Some?
               && s' == RamAccess(s, pid, page.frame, a.offset, action)
                          .(tlb := TlbQueue.Access(s.tlb, s.lru, s.capacity, Cached(key, page.frame)))
               && pid < |s'.processes| && s'.processes[pid].core.status.Running? && s'.processes[pid].fault.None?
             else
               s' == s.(processes := s.processes[pid := s.processes[pid].(fault := Some((a.segment, a.page)))]))
    }

    lemma MoveComes(s: State, pid: nat, action: Action)
      requires MachineInv(s) && pid < |s.processes| && NextOf(s, pid) == Some(action) && Enabled(s, Exec(pid))
      requires (action.MovIn? || action.MovOut?) && InSegment(s, pid, At(s, action.dl))
      ensures Comes(s, pid, At(s, action.dl), Entry(s, pid, action.dl), action, Move(s, pid, action))
    {
      PageThere(s, pid, action.dl);
      TranslateRight(s, pid, action.dl);
      if s.mem.pages[Entry(s, pid, action.dl)].P { EntryFound(s, pid, action.dl); }
    }

    lemma MovedIsLeft(s: State, pcb: Pcb, a: Address, action: Action, frame: int, s': State)
      requires Shape(s.mem) && |s.latest| == |s.mem.pages| && TablesExist(s.mem, pcb.segmentTable)
      requires FoundAgain(s, pcb, frame) && pcb.id < |s.processes| && s.processes[pcb.id].segments == pcb.segmentTable
      requires (action.MovIn? || action.MovOut?) && a.offset + 4 <= s.mem.pageSize
      requires Moved(s, pcb, a, action, frame) && s.lru == tlb.lru && s.capacity == tlb.inputsTlb
      requires interruptionIoPf == NO_INTERRUPT && pcb.interruptType == NO_INTERRUPT
      requires var key := Key(pcb.id, a.segment, a.page);
               s' == RamAccess(s, pcb.id, frame, a.offset, action)
                       .(tlb := TlbQueue.Access(s.tlb, s.lru, s.capacity, Cached(key, frame)))
      requires pcb.id < |s'.processes| && s'.processes[pcb.id].core.status.Running? && s'.processes[pcb.id].fault.None?
      ensures Left(s', pcb)
    {
    }

    lemma FaultedIsLeft(s: State, pcb: Pcb, a: Address, s': State)
      requires pcb.id < |s.processes| && s.processes[pcb.id].core.status.Running? && Faulted(s, pcb, a)
      requires s.lru == tlb.lru && s.capacity == tlb.inputsTlb && pcb.interruptType == NO_INTERRUPT
      requires s' == s.(processes := s.processes[pcb.id := s.processes[pcb.id].(fault := Some((a.segment, a.page)))])
      ensures Left(s', pcb)
    {
    }

    // Past the size check.
    method MovInside(pcb: Pcb, a: Address, reg: Register, isIn: bool,
                     ghost s: State, ghost action: Action, ghost k: nat, ghost s': State)
      requires HasMemory(s) && HasTlb(s) && Runs(s, pcb) && |s.latest| == |s.mem.pages|
      requires s.processes[pcb.id].fault.None? && s.processes[pcb.id].core.status.Running?
      requires interruptionIoPf == NO_INTERRUPT && pcb.interruptType == NO_INTERRUPT
      requires if isIn then action.MovIn? && action.target == reg else action.MovOut? && action.source == reg
      requires Comes(s, pcb.id, a, k, action, s')
      modifies this`interruptionIoPf, this`pfSegment, this`pfPage
      modifies memory`latest, memory.ram, memory.repr, pcb`registers, pcb`programCounter, tlb
      ensures Left(s', pcb)
    {
      Reach(pcb, a, reg, isIn, s, action, k);
      if s.mem.pages[k].P {
        MovedIsLeft(s, pcb, a, action, s.mem.pages[k].frame, s');
      } else {
        FaultedIsLeft(s, pcb, a, s');
      }
    }

    // mov_execute is one Exec of the machine.
    method MovExecute(pcb: Pcb, reg: Register, dl: nat, isIn: bool, ghost s: State, ghost action: Action)
      requires MachineInv(s) && HasMemory(s) && HasTlb(s) && Runs(s, pcb)
      requires interruptionIoPf == NO_INTERRUPT && pcb.interruptType == NO_INTERRUPT
      requires NextOf(s, pcb.id) == Some(action) && Enabled(s, Exec(pcb.id))
      requires action == if isIn then MovIn(reg, dl) else MovOut(dl, reg)
      modifies this`interruptionIoPf, this`pfSegment, this`pfPage
      modifies memory`latest, memory.ram, memory.repr, pcb`registers, pcb`programCounter, tlb
      ensures Left(Move(s, pcb.id, action), pcb)
    {
      var a := Split(dl, inputsTableMemory, memory.pageSize);
      var segment := pcb.segmentTable[a.segment];
      if a.segmentOffset >= segment.size {
        interruptionIoPf := SEGMENTATION_FAULT;
      } else {
        MoveComes(s, pcb.id, action);
        MovInside(pcb, a, reg, isIn, s, action, Entry(s, pcb.id, action.dl), Move(s, pcb.id, action));
      }
    }

    // Execute an instruction that needs no memory.
    method ComputeExecute(pcb: Pcb, action: Action, ghost s: State)
      requires HasTlb(s) && Runs(s, pcb) && !action.MovIn? && !action.MovOut?
      requires interruptionIoPf == NO_INTERRUPT && pcb.interruptType == NO_INTERRUPT
      modifies this`interruptionIoPf, this`device, this`ioValue, pcb, tlb
      ensures var p := s.processes[pcb.id];
              && pcb.Carries(p.(core := Compute(p.core, action)))
              && pcb.interruptType == (if action.Exit? then EXECUTION_FINISHED else NO_INTERRUPT)
              && interruptionIoPf == (if action.Io? then INT_IO else NO_INTERRUPT)
              && (action.Io? ==> device == action.device && ioValue == action.arg)
      ensures action.Set? ==> pcb.registers == old(pcb.registers)[action.target := action.value]
      ensures action.Add? ==>
                var a: int, b: int := old(pcb.registers)[action.target], old(pcb.registers)[action.source];
                pcb.registers == old(pcb.registers)[action.target := (a + b) % 0x1_0000_0000]
      ensures action.Io? || action.Exit? ==> pcb.registers == old(pcb.registers)
      ensures pcb.programCounter == old(pcb.programCounter) + if action.Exit? then 0 else 1
      ensures tlb.Valid() && tlb.Queue() == if action.Exit? then Purge(s.tlb, OfPid(pcb.id)) else s.tlb
    {
      if action.Add? { PlusIsSum(pcb.registers[action.target], pcb.registers[action.source]); }
      match action
      case Set(r, value) =>
        pcb.registers := pcb.registers[r := value];
        pcb.programCounter := pcb.programCounter + 1;
      case Add(r, q) =>
        pcb.registers := pcb.registers[r := Plus(pcb.registers[r], pcb.registers[q])];
        pcb.programCounter := pcb.programCounter + 1;
      case Io(name, arg) =>
        device, ioValue := name, arg;
        interruptionIoPf := INT_IO;
        pcb.programCounter := pcb.programCounter + 1;
      case Exit =>
        pcb.interruptType := EXECUTION_FINISHED;
        tlb.RemoveEntries(OfPid(pcb.id));
    }

    lemma ComputedIsLeft(s: State, pcb: Pcb, action: Action)
      requires MachineInv(s) && pcb.id < |s.processes| && Enabled(s, Exec(pcb.id)) && HasMemory(s)
      requires NextOf(s, pcb.id) == Some(action) && !action.MovIn? && !action.MovOut?
      requires pcb.Carries(s.processes[pcb.id].(core := Compute(s.processes[pcb.id].core, action)))
      requires pcb.interruptType == if action.Exit? then EXECUTION_FINISHED else NO_INTERRUPT
      requires interruptionIoPf == if action.Io? then INT_IO else NO_INTERRUPT
      requires action.Io? ==> device == action.device && ioValue == action.arg
      requires s.lru == tlb.lru && s.capacity == tlb.inputsTlb && tlb.Valid()
      requires tlb.Queue() == if action.Exit? then Purge(s.tlb, OfPid(pcb.id)) else s.tlb
      ensures Left(Do(s, Exec(pcb.id)), pcb)
    {
    }

    // Fetch, decode and execute one instruction.
    method Execute(pcb: Pcb, ghost s: State)
      requires CanRun(s, pcb.id) && HasMemory(s) && HasTlb(s) && Runs(s, pcb) && Enabled(s, Exec(pcb.id))
      requires interruptionIoPf == NO_INTERRUPT && pcb.interruptType == NO_INTERRUPT
      modifies this`interruptionIoPf, this`pfSegment, this`pfPage, this`device, this`ioValue
      modifies memory`latest, memory.ram, memory.repr, pcb, tlb
      ensures Left(Do(s, Exec(pcb.id)), pcb)
    {
      var fetched := pcb.instructions[pcb.programCounter];
      var action := Decode(fetched).value;
      if action.MovIn? || action.MovOut? {
        var reg := if action.MovIn? then action.target else action.source;
        MovExecute(pcb, reg, action.dl, action.MovIn?, s, action);
      } else {
        ComputeExecute(pcb, action, s);
        ComputedIsLeft(s, pcb, action);
      }
    }

    // How one more instruction, leading to s', continues a dispatch.
    static ghost predicate Continues(s: State, pid: nat, left: nat, s': State)
      requires CanRun(s, pid)
    {
      && OnlyThis(s, s', pid) && MachineInv(s')
      && var p, p', raised := s.processes[pid], s'.processes[pid], Raised(s'.processes[pid]);
         && (raised == NO_INTERRUPT ==> CanRun(s', pid) && p'.core.pc > p.core.pc)
         && Dispatched(s, pid, left)
            == if raised != NO_INTERRUPT then (s', raised)
               else if left == 0 then (s', INT_QUANTUM) else Dispatched(s', pid, left - 1)
    }

    lemma ExecContinues(s: State, pid: nat, left: nat)
      requires CanRun(s, pid)
      ensures Enabled(s, Exec(pid)) && Continues(s, pid, left, Do(s, Exec(pid)))
    {
      NextEnabled(s, pid);
      ExecAdvances(s, pid);
    }

    method Instructed(pcb: Pcb, ghost s: State, ghost left: nat) returns (ghost s': State)
      requires CanRun(s, pcb.id) && HasMemory(s) && HasTlb(s) && Runs(s, pcb)
      requires interruptionIoPf == NO_INTERRUPT && pcb.interruptType == NO_INTERRUPT
      modifies this`interruptionIoPf, this`pfSegment, this`pfPage, this`device, this`ioValue
      modifies memory`latest, memory.ram, memory.repr, pcb, tlb
      ensures Left(s', pcb) && Continues(s, pcb.id, left, s')
    {
      ExecContinues(s, pcb.id, left);
      s' := Do(s, Exec(pcb.id));
      Execute(pcb, s);
    }

    // The check for interrupts after an instruction that led to s'.
    method CheckInterrupts(pcb: Pcb, expired: bool, ghost s': State)
      requires Left(s', pcb)
      modifies pcb`interruptType
      ensures memory.Valid() && Leaves(s', pcb) && HasTlb(s') && Noted(s'.processes[pcb.id])
      ensures var raised := Raised(s'.processes[pcb.id]);
              && pcb.interruptType == (if raised == NO_INTERRUPT && expired then INT_QUANTUM else raised)
              && (raised == NO_INTERRUPT ==> interruptionIoPf == NO_INTERRUPT)
    {
      var interruptionQuantum := if expired then INT_QUANTUM else NO_INTERRUPT;
      if pcb.interruptType != EXECUTION_FINISHED {
        pcb.interruptType := if interruptionIoPf == NO_INTERRUPT then interruptionQuantum else interruptionIoPf;
      }
    }

    // One turn of the inner loop: an instruction, then the check for interrupts.
    method Cycle(pcb: Pcb, expired: bool, ghost s: State, ghost left: nat) returns (ghost s': State)
      requires expired == (left == 0)
      requires CanRun(s, pcb.id) && HasMemory(s) && HasTlb(s) && Runs(s, pcb)
      requires interruptionIoPf == NO_INTERRUPT && pcb.interruptType == NO_INTERRUPT
      modifies this`interruptionIoPf, this`pfSegment, this`pfPage, this`device, this`ioValue
      modifies memory`latest, memory.ram, memory.repr, pcb, tlb
      ensures MachineInv(s') && HasMemory(s') && HasTlb(s') && Runs(s', pcb) && Noted(s'.processes[pcb.id])
      ensures pcb.interruptType == NO_INTERRUPT ==>
                && !expired && interruptionIoPf == NO_INTERRUPT && CanRun(s', pcb.id)
                && pcb.programCounter > old(pcb.programCounter)
      ensures Dispatched(s, pcb.id, left)
           == if pcb.interruptType == NO_INTERRUPT then Dispatched(s', pcb.id, left - 1) else (s', pcb.interruptType)
    {
      s' := Instructed(pcb, s, left);
      CheckInterrupts(pcb, expired, s');
    }

    // instruction_cycle for one PCB received. `left` instructions after the first one the interrupt
    // thread has set the quantum variable.
    method InstructionCycle(pcb: Pcb, left: nat, ghost s: State) returns (ghost s': State)
      requires CanRun(s, pcb.id) && HasMemory(s) && HasTlb(s) && Runs(s, pcb)
      modifies this`interruptionIoPf, this`pfSegment, this`pfPage, this`device, this`ioValue
      modifies memory`latest, memory.ram, memory.repr, pcb, tlb
      ensures (s', pcb.interruptType) == Dispatched(s, pcb.id, left)
      ensures MachineInv(s') && HasMemory(s') && HasTlb(s') && Runs(s', pcb) && Noted(s'.processes[pcb.id])
    {
      pcb.interruptType := NO_INTERRUPT;
      interruptionIoPf := NO_INTERRUPT;
      ghost var outcome := Dispatched(s, pcb.id, left);
      var remaining := left;
      s' := s;
      while pcb.interruptType == NO_INTERRUPT
        invariant MachineInv(s') && HasMemory(s') && HasTlb(s') && Runs(s', pcb)
        invariant pcb.interruptType == NO_INTERRUPT ==>
                    && interruptionIoPf == NO_INTERRUPT && CanRun(s', pcb.id)
                    && Dispatched(s', pcb.id, remaining) == outcome
        invariant pcb.interruptType != NO_INTERRUPT ==>
                    (s', pcb.interruptType) == outcome && Noted(s'.processes[pcb.id])
        decreases if pcb.interruptType == NO_INTERRUPT then 1 else 0, |pcb.instructions| - pcb.programCounter
      {
        s' := Cycle(pcb, remaining == 0, s', remaining);
        remaining := if remaining == 0 then 0 else remaining - 1;
      }
    }
  }
}
