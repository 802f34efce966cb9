// One dispatch: the CPU runs a process until it exits, faults, asks for I/O or is cut by its quantum.
// Why a dispatch ends, and why a process is dispatched only so often.
module Dispatch {
  import opened Words
  import opened Paging
  import opened Mmu
  import opened Programs
  import opened Alone
  import opened Machine

  // What the last instruction of a process raises.
  function Raised(p: Process): Interrupt {
    if p.fault.Some? then INT_PAGE_FAULT
    else match p.core.status
      case Running => NO_INTERRUPT
      case Waiting(_, _) => INT_IO
      case Exited => EXECUTION_FINISHED
      case Killed => SEGMENTATION_FAULT
  }

  // The first EXIT of a program; its length when it has none.
  function ExitAt(program: seq<Instruction>, from: nat := 0): (e: nat)
    requires from <= |program|
    ensures from <= e <= |program| && (e < |program| ==> program[e].operation == EXIT)
    ensures forall i :: from <= i < e ==> program[i].operation != EXIT
    decreases |program| - from
  {
    if from == |program| || program[from].operation == EXIT then from else ExitAt(program, from + 1)
  }

  predicate AddressOk(segments: seq<Segment>, entries: nat, pageSize: nat, dl: nat)
    requires entries > 0 && pageSize > 0
  {
    var a := Split(dl, entries, pageSize);
    && a.segment < |segments|
    && (a.segmentOffset < segments[a.segment].size ==> a.offset + 4 <= pageSize)
  }

  // The program contains EXIT, and up to there its instructions decode and name existing segments.
  ghost predicate Runnable(program: seq<Instruction>, segments: seq<Segment>, entries: nat, pageSize: nat)
    requires entries > 0 && pageSize > 0
  {
    && ExitAt(program) < |program|
    && forall i :: 0 <= i < ExitAt(program) ==>
         var action := Decode(program[i]);
         && action.Some?
         && (action.value.MovIn? || action.value.MovOut? ==> AddressOk(segments, entries, pageSize, action.value.dl))
  }

  ghost predicate CanRun(s: State, pid: nat) {
    && MachineInv(s) && pid < |s.processes|
    && var p := s.processes[pid];
       && p.fault.None? && p.core.status.Running? && p.core.pc <= ExitAt(p.program)
       && Runnable(p.program, p.segments, s.entries, s.mem.pageSize)
  }

  lemma NextEnabled(s: State, pid: nat)
    requires CanRun(s, pid)
    ensures Enabled(s, Exec(pid))
  {
    var p := s.processes[pid];
    assert Decode(p.program[p.core.pc]).Some?;
  }

  // Of the processes only this one changed, and it keeps its program and its tables.
  ghost predicate OnlyThis(s: State, s': State, pid: nat) {
    && |s'.processes| == |s.processes| && pid < |s.processes|
    && s'.entries == s.entries && s'.mem.pageSize == s.mem.pageSize
    && s'.processes == s.processes[pid := s'.processes[pid]]
    && s'.processes[pid].program == s.processes[pid].program && s'.processes[pid].segments == s.processes[pid].segments
  }

  lemma MoveAdvances(s: State, pid: nat, action: Action)
    requires CanRun(s, pid) && NextOf(s, pid) == Some(action) && Enabled(s, Exec(pid))
    requires action.MovIn? || action.MovOut?
    ensures var s', core := Move(s, pid, action), s.processes[pid].core;
            && OnlyThis(s, s', pid)
            && s'.processes[pid].core.pc == core.pc + (if Raised(s'.processes[pid]) == NO_INTERRUPT then 1 else 0)
            && !s'.processes[pid].core.status.Waiting?
  {
    if InSegment(s, pid, At(s, action.dl)) {
      PageThere(s, pid, action.dl);
      TranslateRight(s, pid, action.dl);
      if Reachable(s, pid, action) {
        var frame, offset := MoveIsAccess(s, pid, action);
      }
    }
  }

  // The instruction just executed was the I/O whose device the process waits for.
  ghost predicate JustAsked(p: Process) {
    && p.core.status.Waiting? && 0 < p.core.pc <= |p.program|
    && Decode(p.program[p.core.pc - 1]) == Some(Io(p.core.status.device, p.core.status.arg))
  }

  lemma ComputeAdvances(s: State, pid: nat, action: Action)
    requires CanRun(s, pid) && NextOf(s, pid) == Some(action) && Enabled(s, Exec(pid))
    requires !action.MovIn? && !action.MovOut?
    ensures var s', core := Do(s, Exec(pid)), s.processes[pid].core;
            var raised, core' := Raised(s'.processes[pid]), s'.processes[pid].core;
            && OnlyThis(s, s', pid)
            && core'.pc == core.pc + (if raised == NO_INTERRUPT || raised == INT_IO then 1 else 0)
            && (raised == INT_IO ==> JustAsked(s'.processes[pid]))
  {
  }

  // An instruction ends the dispatch or moves the counter one further, and touches no other process.
  lemma ExecAdvances(s: State, pid: nat)
    requires CanRun(s, pid) && Enabled(s, Exec(pid))
    ensures var s', core := Do(s, Exec(pid)), s.processes[pid].core;
            var raised, core' := Raised(s'.processes[pid]), s'.processes[pid].core;
            && MachineInv(s') && OnlyThis(s, s', pid)
            && core.pc <= core'.pc <= ExitAt(s.processes[pid].program)
            && (raised == NO_INTERRUPT || raised == INT_IO ==> core'.pc == core.pc + 1)
            && (raised == NO_INTERRUPT ==> CanRun(s', pid))
            && (raised == INT_IO ==> JustAsked(s'.processes[pid]))
  {
    var action := NextOf(s, pid).value;
    StepKeepsInv(s, Exec(pid));
    if action.MovIn? || action.MovOut? { MoveAdvances(s, pid, action); } else { ComputeAdvances(s, pid, action); }
  }

  // How a dispatch leaves its process.
  ghost predicate Advanced(p: Process, p': Process, why: Interrupt) {
    && p.core.pc <= p'.core.pc <= ExitAt(p.program)
    && why != NO_INTERRUPT && why == (if Raised(p') == NO_INTERRUPT then INT_QUANTUM else Raised(p'))
    && (why == INT_QUANTUM || why == INT_IO ==> p'.core.pc > p.core.pc)
    && (why == INT_IO ==> JustAsked(p'))
  }

  // An instruction that ends the process or faults does not advance the counter.
  lemma EndsHere(s: State, pid: nat)
    requires CanRun(s, pid) && Enabled(s, Exec(pid))
    ensures var s' := Do(s, Exec(pid));
            var raised := Raised(s'.processes[pid]);
            raised != NO_INTERRUPT && raised != INT_IO ==> s'.processes[pid].core.pc == s.processes[pid].core.pc
  {
    var action := NextOf(s, pid).value;
    if action.MovIn? || action.MovOut? { MoveAdvances(s, pid, action); } else { ComputeAdvances(s, pid, action); }
  }

  // How many instructions a dispatch has executed: exactly `left` and one more if it is cut by its quantum, else
  // no more than that.
  predicate Lasted(p: Process, p': Process, why: Interrupt, left: nat) {
    && (why == INT_QUANTUM ==> p'.core.pc == p.core.pc + left + 1)
    && (why == INT_IO ==> p'.core.pc <= p.core.pc + left + 1)
    && (why != INT_QUANTUM && why != INT_IO ==> p'.core.pc <= p.core.pc + left)
  }

  // instruction_cycle, for one PCB received: `left` instructions later the quantum is found expired.
  // It ends although nothing in its text bounds it: the counter cannot pass EXIT. Each dispatch ends
  // the process, faults, or has advanced the counter.
  ghost function Dispatched(s: State, pid: nat, left: nat): (outcome: (State, Interrupt))
    requires CanRun(s, pid)
    ensures MachineInv(outcome.0) && OnlyThis(s, outcome.0, pid)
    ensures Advanced(s.processes[pid], outcome.0.processes[pid], outcome.1)
    ensures Lasted(s.processes[pid], outcome.0.processes[pid], outcome.1, left)
    decreases ExitAt(s.processes[pid].program) - s.processes[pid].core.pc
  {
    NextEnabled(s, pid);
    ExecAdvances(s, pid);
    EndsHere(s, pid);
    var s' := Do(s, Exec(pid));
    var raised := Raised(s'.processes[pid]);
    if raised != NO_INTERRUPT then (s', raised)
    else if left == 0 then (s', INT_QUANTUM)
    else Dispatched(s', pid, left - 1)
  }

  // Which interrupt stands for what.
  lemma RaisedMeans(p: Process)
    ensures p.fault.Some? ==> Raised(p) == INT_PAGE_FAULT
    ensures p.fault.None? && p.core.status.Running? ==> Raised(p) == NO_INTERRUPT
    ensures p.fault.None? && p.core.status.Waiting? ==> Raised(p) == INT_IO
    ensures p.fault.None? && p.core.status == Exited ==> Raised(p) == EXECUTION_FINISHED
    ensures p.fault.None? && p.core.status == Killed ==> Raised(p) == SEGMENTATION_FAULT
  {
  }

  // ---------- Over a whole run ----------

  datatype Turn = Spawn(program: seq<Instruction>, sizes: seq<nat>) | Dispatch(pid: nat, left: nat)
                | Resolve(pid: nat) | IoDone(pid: nat, value: Word) | Release(pid: nat)

  ghost predicate CanTake(s: State, turn: Turn)
    requires MachineInv(s)
  {
    match turn
    case Dispatch(pid, _) => CanRun(s, pid)
    case Spawn(program, sizes) => Enabled(s, Step.Spawn(program, sizes))
    case Resolve(pid) => Enabled(s, Step.Resolve(pid))
    case IoDone(pid, value) => Enabled(s, Step.IoDone(pid, value))
    case Release(pid) => Enabled(s, Step.Release(pid))
  }

  ghost function Take(s: State, turn: Turn): State
    requires MachineInv(s) && CanTake(s, turn)
  {
    match turn
    case Dispatch(pid, left) => Dispatched(s, pid, left).0
    case Spawn(program, sizes) => Do(s, Step.Spawn(program, sizes))
    case Resolve(pid) => Do(s, Step.Resolve(pid))
    case IoDone(pid, value) => Do(s, Step.IoDone(pid, value))
    case Release(pid) => Do(s, Step.Release(pid))
  }

  // Turn i leads from state i to the next.
  ghost predicate Taken(states: seq<State>, turns: seq<Turn>, i: nat)
    requires |states| == |turns| + 1 && i < |turns|
  {
    MachineInv(states[i]) ==> CanTake(states[i], turns[i]) && states[i + 1] == Take(states[i], turns[i])
  }

  ghost predicate Turns(states: seq<State>, turns: seq<Turn>) {
    && |states| == |turns| + 1 && MachineInv(states[0]) && states[0].processes == []
    && forall i: nat {:trigger Taken(states, turns, i)} :: i < |turns| ==> Taken(states, turns, i)
  }

  // How often the process was dispatched in the first n turns.
  function Dispatches(turns: seq<Turn>, n: nat, pid: nat): nat
    requires n <= |turns|
  {
    if n == 0 then 0
    else Dispatches(turns, n - 1, pid) + if turns[n - 1].Dispatch? && turns[n - 1].pid == pid then 1 else 0
  }

  // How many of these dispatches ended in a page fault.
  ghost function Faults(states: seq<State>, turns: seq<Turn>, n: nat, pid: nat): nat
    requires |states| == |turns| + 1 && n <= |turns|
  {
    if n == 0 then 0
    else Faults(states, turns, n - 1, pid)
         + if turns[n - 1].Dispatch? && turns[n - 1].pid == pid
              && pid < |states[n].processes| && states[n].processes[pid].fault.Some?
           then 1 else 0
  }

  function Ended(p: Process): nat {
    if p.core.status.Exited? || p.core.status.Killed? then 1 else 0
  }

  // A dispatch uses up an instruction, a fault or the end; nothing else undoes any of that.
  lemma TurnCounts(s: State, turn: Turn, pid: nat)
    requires MachineInv(s) && CanTake(s, turn)
    ensures var s', mine := Take(s, turn), turn.Dispatch? && turn.pid == pid;
            && MachineInv(s') && |s.processes| <= |s'.processes|
            && (pid < |s.processes| ==>
                  var p, p' := s.processes[pid], s'.processes[pid];
                  && p'.program == p.program
                  && (mine ==> p'.core.pc < |p.program|)
                  && (mine ==> p'.core.pc + (if p'.fault.Some? then 1 else 0) + Ended(p') >= p.core.pc + Ended(p) + 1)
                  && (!mine ==> p'.core.pc == p.core.pc && Ended(p') == Ended(p)))
  {
    match turn
    case Dispatch(q, left) => assert Advanced(s.processes[q], Take(s, turn).processes[q], Dispatched(s, q, left).1);
    case Spawn(program, sizes) => StepKeepsInv(s, Step.Spawn(program, sizes));
    case Resolve(q) => StepKeepsInv(s, Step.Resolve(q));
    case IoDone(q, value) => StepKeepsInv(s, Step.IoDone(q, value));
    case Release(q) => StepKeepsInv(s, Step.Release(q));
  }

  // A process is dispatched at most once per instruction and once per page fault.
  lemma {:induction false} DispatchesBounded(states: seq<State>, turns: seq<Turn>, n: nat, pid: nat)
    requires Turns(states, turns) && n < |states|
    ensures MachineInv(states[n])
    ensures pid >= |states[n].processes| ==> Dispatches(turns, n, pid) == 0
    ensures pid < |states[n].processes| ==>
              var p, d, f := states[n].processes[pid], Dispatches(turns, n, pid), Faults(states, turns, n, pid);
              d <= p.core.pc + f + Ended(p) && (d > 0 ==> p.core.pc < |p.program| && d <= |p.program| + f)
    decreases n
  {
    if n > 0 {
      DispatchesBounded(states, turns, n - 1, pid);
      assert Taken(states, turns, n - 1);
      TurnCounts(states[n - 1], turns[n - 1], pid);
    }
  }
}
