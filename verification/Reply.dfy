// The end of a dispatch: the CPU sends the PCB back, and the kernel decodes what the machine did.
module Reply {
  import opened Words
  import opened Paging
  import opened Mmu
  import opened Programs
  import opened Alone
  import opened Machine
  import opened Dispatch
  import opened Wire
  import opened Streams
  import C = Cpu

  // What an int can hold.
  predicate IsInt32(x: int) {
    0 <= x < 0x8000_0000
  }

  predicate EntryFits(s: Segment) {
    IsInt32(s.size) && IsInt32(s.table)
  }

  // A process whose numbers and lists fit the ints of the wire.
  predicate Fits(program: seq<Instruction>, segments: seq<Segment>) {
    && IsInt32(|program|) && (forall i :: 0 <= i < |program| ==> InstructionOk(program[i]))
    && IsInt32(|segments|) && (forall i :: 0 <= i < |segments| ==> EntryFits(segments[i]))
  }

  function Entries(segments: seq<Segment>): (entries: seq<SegmentEntry>)
    requires forall i :: 0 <= i < |segments| ==> EntryFits(segments[i])
    ensures |entries| == |segments|
    ensures forall i :: 0 <= i < |segments| ==>
              entries[i].size == segments[i].size && entries[i].pageTableIndex == segments[i].table
  {
    if segments == [] then []
    else
      var last := segments[|segments| - 1];
      assert EntryFits(last);
      Entries(segments[..|segments| - 1]) + [SegmentEntry(last.size, last.table)]
  }

  // The PCB as add_pcb writes it.
  function OnWire(pcb: C.Pcb, socket: Int32): Pcb
    requires Fits(pcb.instructions, pcb.segmentTable) && IsInt32(pcb.id) && IsInt32(pcb.programCounter)
    reads pcb
  {
    Pcb(pcb.id, pcb.interruptType, pcb.programCounter, pcb.registers, socket,
        Entries(pcb.segmentTable), pcb.instructions)
  }

  // What the kernel is told of how process p was left.
  ghost predicate Tells(tail: Tail, why: Interrupt, p: Process) {
    match why
    case INT_IO => tail.IoTail? && p.core.status == Waiting(tail.device, tail.arg)
    case INT_PAGE_FAULT =>
      && tail.PfTail? && tail.segment >= 0 && tail.page >= 0
      && p.fault == Some((tail.segment, tail.page))
    case _ => tail.Plain?
  }

  lemma AskedFits(p: Process)
    requires JustAsked(p) && Fits(p.program, p.segments)
    ensures Sendable(p.core.status.device)
  {
    assert InstructionOk(p.program[p.core.pc - 1]);
  }

  lemma FaultFits(m: Mem, p: Process)
    requires Shape(m) && m.pageSize > 0 && TablesFit(m, p.segments) && FaultRight(m, p) && p.fault.Some?
    requires Fits(p.program, p.segments)
    ensures IsInt32(p.fault.value.0) && IsInt32(p.fault.value.1)
  {
    var (segment, page) := p.fault.value;
    PageInTableIff(page, p.segments[segment].size, m.pageSize);
    AtMost(page, m.pageSize);
    assert EntryFits(p.segments[segment]);
  }

  // Whatever ends a dispatch can be sent: the device is a string of the program, and the page of a
  // fault and the counter are below what an int holds.
  lemma OutcomeFits(s: State, pid: nat, left: nat)
    requires CanRun(s, pid) && Fits(s.processes[pid].program, s.processes[pid].segments)
    ensures var (s', why) := Dispatched(s, pid, left);
            var p := s'.processes[pid];
            && IsInt32(p.core.pc)
            && (why == INT_IO ==> p.core.status.Waiting? && Sendable(p.core.status.device))
            && (why == INT_PAGE_FAULT ==> p.fault.Some? && IsInt32(p.fault.value.0) && IsInt32(p.fault.value.1))
  {
    var (s', why) := Dispatched(s, pid, left);
    var p := s'.processes[pid];
    if why == INT_IO {
      AskedFits(p);
    } else if why == INT_PAGE_FAULT {
      FaultFits(s'.mem, p);
    }
  }

  lemma {:induction false} AtMost(n: nat, d: nat)
    requires d > 0
    ensures n <= n * d
    decreases n
  {
    if n > 0 { AtMost(n - 1, d); }
  }

  // instruction_cycle from the PCB received to the PCB sent back.
  method RunAndReply(cpu: C.Cpu, pcb: C.Pcb, socket: Int32, connection: Connection, left: nat, ghost s: State)
    returns (ghost s': State, ghost sent: Message)
    requires CanRun(s, pcb.id) && cpu.HasMemory(s) && cpu.HasTlb(s) && cpu.Runs(s, pcb)
    requires Fits(pcb.instructions, pcb.segmentTable) && IsInt32(pcb.id)
    modifies cpu`interruptionIoPf, cpu`pfSegment, cpu`pfPage, cpu`device, cpu`ioValue
    modifies cpu.memory`latest, cpu.memory.ram, cpu.memory.repr, pcb, cpu.tlb, connection
    ensures (s', pcb.interruptType) == Dispatched(s, pcb.id, left)
    ensures IsInt32(pcb.programCounter) && sent.pcb == OnWire(pcb, socket) && cpu.Runs(s', pcb)
    ensures MessageOk(sent) && Tells(sent.tail, pcb.interruptType, s'.processes[pcb.id])
    ensures connection.bytes == old(connection.bytes) + EncMessage(sent)
  {
    OutcomeFits(s, pcb.id, left);
    s' := cpu.InstructionCycle(pcb, left, s);
    var segment: Int32, page: Int32 := 0, 0;
    if pcb.interruptType == INT_PAGE_FAULT {
      segment, page := cpu.pfSegment, cpu.pfPage;
    }
    sent := connection.SendByInterrupt(OnWire(pcb, socket), cpu.device, cpu.ioValue, segment, page);
  }

  // And what wait_cpu_dispatch makes of it, when nothing else is on the connection: the process as it
  // was left, and the device or the page it waits for.
  method RunAndReceive(cpu: C.Cpu, pcb: C.Pcb, socket: Int32, connection: Connection, left: nat, ghost s: State)
    returns (ghost s': State, received: Option<Message>)
    requires CanRun(s, pcb.id) && cpu.HasMemory(s) && cpu.HasTlb(s) && cpu.Runs(s, pcb)
    requires Fits(pcb.instructions, pcb.segmentTable) && IsInt32(pcb.id) && connection.bytes == []
    modifies cpu`interruptionIoPf, cpu`pfSegment, cpu`pfPage, cpu`device, cpu`ioValue
    modifies cpu.memory`latest, cpu.memory.ram, cpu.memory.repr, pcb, cpu.tlb, connection
    ensures (s', pcb.interruptType) == Dispatched(s, pcb.id, left)
    ensures received.Some? && connection.bytes == []
    ensures var p, m := s'.processes[pcb.id], received.value;
            && m.pcb.id == pcb.id && m.pcb.interruptType == Dispatched(s, pcb.id, left).1
            && m.pcb.programCounter == p.core.pc && m.pcb.registers == p.core.registers
            && m.pcb.instructions == p.program && m.pcb.socketConsola == socket
            && |m.pcb.segmentTable| == |p.segments|
            && (forall i :: 0 <= i < |p.segments| ==>
                  && m.pcb.segmentTable[i].size == p.segments[i].size
                  && m.pcb.segmentTable[i].pageTableIndex == p.segments[i].table)
            && Tells(m.tail, m.pcb.interruptType, p)
  {
    ghost var sent: Message;
    s', sent := RunAndReply(cpu, pcb, socket, connection, left, s);
    MessageRoundTrip(sent, []);
    assert connection.bytes == EncMessage(sent) + [];
    received := connection.RecvDispatch();
  }
}
