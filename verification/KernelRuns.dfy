// The scheduler and the machine together: which process the kernel lets run, and what it does there.
module KernelRuns {
  import opened Words
  import opened Paging
  import opened Mmu
  import opened Programs
  import opened Alone
  import opened Machine
  import opened Dispatch
  import opened Redispatch
  import S = Scheduling
  import P = Places

  // Process pid of the machine has the number pid + 1 in the kernel. `timed` says that the kernel has started
  // a quantum at least once: its interrupt may arrive during the dispatch it was started for, or late.
  datatype Whole = Whole(kernel: S.Sched, machine: State, timed: bool)

  // A step of the kernel's threads, a turn of the machine, or both at once.
  datatype Move = Move(step: Option<S.Step>, turn: Option<Turn>)

  // What the kernel makes of the PCB that a dispatch sends back.
  function ReasonOf(p: Process, why: Interrupt): S.Reason
    requires why == INT_IO ==> p.core.status.Waiting?
  {
    match why
    case EXECUTION_FINISHED => S.Finished
    case SEGMENTATION_FAULT => S.SegmentationFault
    case INT_PAGE_FAULT => S.PageFault
    case INT_IO => S.Io(p.core.status.device)
    case _ => S.Quantum
  }

  // The device exists, and TECLADO gets one of the registers.
  predicate CanServe(action: Option<Action>, devices: seq<S.Device>) {
    action.Some? && action.value.Io? ==>
      && (action.value.device == "TECLADO" ==> 0 <= action.value.arg < 4)
      && (!S.Console(action.value.device) ==> S.DeviceIndex(devices, action.value.device).Some?)
  }

  predicate Served(program: seq<Instruction>, devices: seq<S.Device>) {
    forall i :: 0 <= i < ExitAt(program) ==> CanServe(Decode(program[i]), devices)
  }

  // Which steps and turns are one.
  ghost predicate Together(w: Whole, move: Move)
    requires MachineInv(w.machine)
  {
    var s, m := w.kernel, w.machine;
    match move
    case Move(Some(Create), Some(Spawn(program, sizes))) =>
      CanRun(Take(m, move.turn.value), |m.processes|) && Served(program, s.devices)
    case Move(Some(Return(reason)), Some(Dispatch(pid, left))) =>
      && s.main == S.Running(pid + 1) && CanRun(m, pid)
      && (reason == S.Quantum ==> w.timed)
      && var (m', why) := Dispatched(m, pid, left); reason == ReasonOf(m'.processes[pid], why)
    case Move(Some(ConsoleDone(n)), Some(IoDone(pid, _))) => n == pid + 1
    case Move(Some(DeviceDone(d)), Some(IoDone(pid, _))) => d < |s.devices| && s.devices[d].server == S.Serving(pid + 1)
    case Move(None, Some(turn)) => turn.Resolve? || turn.Release?
    case Move(Some(FaultResolved(n)), None) => 1 <= n <= |m.processes| && m.processes[n - 1].fault.None?
    case Move(Some(step), None) =>
      step.Post? || step.Wait? || step.Dispatch? || step.PostOwn? || step.DeviceWait? || step.DevicePop?
    case _ => false
  }

  ghost predicate Possible(w: Whole, move: Move) {
    && MachineInv(w.machine)
    && (move.step.Some? ==> S.Enabled(w.kernel, move.step.value))
    && (move.turn.Some? ==> CanTake(w.machine, move.turn.value))
    && Together(w, move)
  }

  ghost function After(w: Whole, move: Move): Whole
    requires Possible(w, move)
  {
    Whole(if move.step.Some? then S.Do(w.kernel, move.step.value) else w.kernel,
          if move.turn.Some? then Take(w.machine, move.turn.value) else w.machine,
          w.timed || (move.step == Some(S.Dispatch) && S.UsesQuantum(w.kernel)))
  }

  // ---------- Where the kernel has a process, and how the machine has it ----------

  predicate Belongs(place: P.Place, p: Process) {
    match place
    case Nowhere => false
    case Ready => p.core.status.Running? && p.fault.None?
    case OnCpu => p.core.status.Running? && p.fault.None?
    case AtDevice => p.core.status.Waiting? && !S.Console(p.core.status.device)
    case AtConsole => p.core.status.Waiting? && S.Console(p.core.status.device)
    case OnFault => p.core.status.Running?
    case Ended => p.core.status.Exited? || p.core.status.Killed?
  }

  ghost predicate Sane(m: State, p: Process, devices: seq<S.Device>)
    requires m.entries > 0 && m.mem.pageSize > 0
  {
    && p.core.pc <= ExitAt(p.program) && Runnable(p.program, p.segments, m.entries, m.mem.pageSize)
    && Served(p.program, devices) && (p.core.status.Waiting? ==> JustAsked(p))
  }

  ghost predicate Linked(w: Whole, pid: nat)
    requires MachineInv(w.machine) && pid < |w.machine.processes|
  {
    && Belongs(P.PlaceOf(w.kernel, pid + 1), w.machine.processes[pid])
    && Sane(w.machine, w.machine.processes[pid], w.kernel.devices)
  }

  ghost predicate Inv(w: Whole) {
    && S.Inv(w.kernel) && MachineInv(w.machine) && w.kernel.created == |w.machine.processes|
    && forall pid: nat {:trigger Linked(w, pid)} :: pid < |w.machine.processes| ==> Linked(w, pid)
  }

  // ---------- What a turn does to a process ----------

  function Subject(turn: Turn): Option<nat> {
    match turn
    case Spawn(_, _) => None
    case Dispatch(pid, _) => Some(pid)
    case Resolve(pid) => Some(pid)
    case IoDone(pid, _) => Some(pid)
    case Release(pid) => Some(pid)
  }

  lemma StepLeaves(m: State, step: Machine.Step)
    requires MachineInv(m) && Machine.Enabled(m, step)
    ensures var m' := Machine.Do(m, step);
            MachineInv(m') && m'.entries == m.entries && m'.mem.pageSize == m.mem.pageSize
  {
    StepKeepsInv(m, step);
    LayoutKept(m, step);
  }

  lemma TurnKeeps(m: State, turn: Turn)
    requires MachineInv(m) && CanTake(m, turn)
    ensures var m' := Take(m, turn);
            && MachineInv(m') && m'.entries == m.entries && m'.mem.pageSize == m.mem.pageSize
            && |m'.processes| == |m.processes| + (if turn.Spawn? then 1 else 0)
  {
    match turn
    case Dispatch(pid, left) =>
    case Spawn(program, sizes) => StepLeaves(m, Step.Spawn(program, sizes));
    case Resolve(pid) => StepLeaves(m, Step.Resolve(pid));
    case IoDone(pid, value) => StepLeaves(m, Step.IoDone(pid, value));
    case Release(pid) => StepLeaves(m, Step.Release(pid));
  }

  lemma OthersUntouched(m: State, turn: Turn, pid: nat)
    requires MachineInv(m) && CanTake(m, turn) && pid < |m.processes| && Subject(turn) != Some(pid)
    ensures pid < |Take(m, turn).processes| && Take(m, turn).processes[pid] == m.processes[pid]
  {
  }

  // ---------- Every move keeps the two together ----------

  lemma NamesKept(s: S.Sched, step: S.Step, name: string)
    requires S.Enabled(s, step) && S.DeviceIndex(s.devices, name).Some?
    ensures S.DeviceIndex(S.Do(s, step).devices, name).Some?
  {
    var d := S.DeviceIndex(s.devices, name).value;
    assert S.Do(s, step).devices[d].name == name;
  }

  lemma ServedKept(program: seq<Instruction>, s: S.Sched, step: S.Step)
    requires S.Enabled(s, step) && Served(program, s.devices)
    ensures Served(program, S.Do(s, step).devices)
  {
    forall i | 0 <= i < ExitAt(program) ensures CanServe(Decode(program[i]), S.Do(s, step).devices) {
      var action := Decode(program[i]);
      assert CanServe(action, s.devices);
      if action.Some? && action.value.Io? && !S.Console(action.value.device) {
        NamesKept(s, step, action.value.device);
      }
    }
  }

  lemma ChosenIsReady(s: S.Sched)
    requires S.Choice(s).Some?
    ensures P.PlaceOf(s, S.Chosen(s)) == P.Ready
  {
    match S.Choice(s).value
    case Ready1 => S.CountPop(s.ready1, s.ready1[0]);
    case Ready2 => S.CountPop(s.ready2, s.ready2[0]);
    case New => S.CountPop(s.newQueue, s.newQueue[0]);
  }

  // The place of a process after a move.
  ghost function PlaceAfter(w: Whole, move: Move, pid: nat): P.Place
    requires Possible(w, move)
  {
    if move.step.Some? then P.NextPlace(w.kernel, move.step.value, pid + 1) else P.PlaceOf(w.kernel, pid + 1)
  }

  lemma KernelAfter(w: Whole, move: Move, pid: nat)
    requires Inv(w) && Possible(w, move)
    ensures S.Inv(After(w, move).kernel) && P.PlaceOf(After(w, move).kernel, pid + 1) == PlaceAfter(w, move, pid)
  {
    if move.step.Some? { P.PlaceStep(w.kernel, move.step.value, pid + 1); }
  }

  // The process the move is about.
  function Moved(move: Move): Option<nat> {
    if move.turn.Some? then Subject(move.turn.value)
    else
      match move.step
      case Some(FaultResolved(n)) => if n > 0 then Some(n - 1) else None
      case _ => None
  }

  // For the others at most the CPU was given to them.
  lemma PlaceKept(w: Whole, move: Move, pid: nat)
    requires Inv(w) && Possible(w, move) && pid < |w.machine.processes| && Moved(move) != Some(pid)
    ensures var place, place' := P.PlaceOf(w.kernel, pid + 1), PlaceAfter(w, move, pid);
            place' == place || (place == P.Ready && place' == P.OnCpu)
  {
    if move.step.Some? {
      if move.step.value.Dispatch? { ChosenIsReady(w.kernel); }
    }
  }

  lemma PlaceOfMoved(w: Whole, move: Move, pid: nat)
    requires Inv(w) && Possible(w, move) && pid < |w.machine.processes| && Moved(move) == Some(pid)
    ensures var turn, place := move.turn, PlaceAfter(w, move, pid);
            && (turn.None? ==> P.PlaceOf(w.kernel, pid + 1) == P.OnFault && place == P.Ready)
            && (turn.Some? && (turn.value.Resolve? || turn.value.Release?) ==> place == P.PlaceOf(w.kernel, pid + 1))
            && (turn.Some? && turn.value.IoDone? ==> place == P.Ready)
            && (turn.Some? && turn.value.Dispatch? ==> place == P.Reaches(move.step.value.reason))
  {
    P.OnlyPlace(w.kernel, pid + 1);
  }

  // The reason the kernel is given says how the machine left the process.
  lemma DispatchBelongs(m: State, pid: nat, left: nat)
    requires CanRun(m, pid)
    ensures var (m', why) := Dispatched(m, pid, left);
            var p, p' := m.processes[pid], m'.processes[pid];
            && p'.program == p.program && p'.segments == p.segments && p'.core.pc <= ExitAt(p.program)
            && Belongs(P.Reaches(ReasonOf(p', why)), p') && (p'.core.status.Waiting? ==> JustAsked(p'))
  {
    var (m', why) := Dispatched(m, pid, left);
    assert FaultRight(m'.mem, m'.processes[pid]);
  }

  lemma IoBelongs(m: State, pid: nat, value: Word)
    requires MachineInv(m) && CanTake(m, Turn.IoDone(pid, value))
    ensures var p, p' := m.processes[pid], Take(m, Turn.IoDone(pid, value)).processes[pid];
            && p' == p.(core := p'.core) && p'.core.pc == p.core.pc && p'.core.status.Running? && p'.fault.None?
  {
    assert FaultRight(m.mem, m.processes[pid]);
  }

  lemma SaneAfter(w: Whole, move: Move, p: Process, p': Process)
    requires Inv(w) && Possible(w, move) && Sane(w.machine, p, w.kernel.devices)
    requires p'.program == p.program && p'.segments == p.segments && p'.core.pc <= ExitAt(p.program)
    requires p'.core.status.Waiting? ==> JustAsked(p')
    ensures var w' := After(w, move);
            && w'.machine.entries > 0 && w'.machine.mem.pageSize > 0
            && Sane(w'.machine, p', w'.kernel.devices)
  {
    if move.turn.Some? { TurnKeeps(w.machine, move.turn.value); }
    if move.step.Some? { ServedKept(p.program, w.kernel, move.step.value); }
  }

  lemma OthersLinked(w: Whole, move: Move, pid: nat)
    requires Inv(w) && Possible(w, move) && MachineInv(After(w, move).machine)
    requires pid < |w.machine.processes| && Moved(move) != Some(pid)
    ensures pid < |After(w, move).machine.processes| && Linked(After(w, move), pid)
  {
    var p := w.machine.processes[pid];
    assert Linked(w, pid);
    if move.turn.Some? { OthersUntouched(w.machine, move.turn.value, pid); }
    SaneAfter(w, move, p, p);
    KernelAfter(w, move, pid);
    PlaceKept(w, move, pid);
  }

  // How the process is left, and that it belongs where the kernel puts it.
  ghost predicate WellMoved(p: Process, p': Process, place: P.Place) {
    && p'.program == p.program && p'.segments == p.segments && p'.core.pc <= ExitAt(p.program)
    && (p'.core.status.Waiting? ==> JustAsked(p')) && Belongs(place, p')
  }

  lemma TurnMoves(w: Whole, move: Move, pid: nat)
    requires Inv(w) && Possible(w, move) && move.turn.Some?
    requires pid < |w.machine.processes| && Moved(move) == Some(pid)
    ensures pid < |Take(w.machine, move.turn.value).processes|
    ensures WellMoved(w.machine.processes[pid], Take(w.machine, move.turn.value).processes[pid],
                      PlaceAfter(w, move, pid))
  {
    assert Linked(w, pid);
    PlaceOfMoved(w, move, pid);
    match move.turn.value
    case Dispatch(_, left) => DispatchBelongs(w.machine, pid, left);
    case IoDone(_, value) => IoBelongs(w.machine, pid, value);
    case Resolve(_) => assert FaultRight(w.machine.mem, w.machine.processes[pid]);
    case Release(_) =>
  }

  lemma FaultEnds(w: Whole, move: Move, pid: nat)
    requires Inv(w) && Possible(w, move) && move.turn.None?
    requires pid < |w.machine.processes| && Moved(move) == Some(pid)
    ensures WellMoved(w.machine.processes[pid], w.machine.processes[pid], PlaceAfter(w, move, pid))
  {
    assert Linked(w, pid);
    PlaceOfMoved(w, move, pid);
  }

  lemma MovedLinked(w: Whole, move: Move, pid: nat)
    requires Inv(w) && Possible(w, move) && MachineInv(After(w, move).machine)
    requires pid < |w.machine.processes| && Moved(move) == Some(pid)
    ensures pid < |After(w, move).machine.processes| && Linked(After(w, move), pid)
  {
    if move.turn.Some? { TurnMoves(w, move, pid); } else { FaultEnds(w, move, pid); }
    assert Linked(w, pid);
    KernelAfter(w, move, pid);
    SaneAfter(w, move, w.machine.processes[pid], After(w, move).machine.processes[pid]);
  }

  lemma NewLinked(w: Whole, move: Move)
    requires Inv(w) && Possible(w, move) && MachineInv(After(w, move).machine)
    requires move.turn.Some? && move.turn.value.Spawn?
    ensures |After(w, move).machine.processes| == |w.machine.processes| + 1
    ensures Linked(After(w, move), |w.machine.processes|)
  {
    var n := |w.machine.processes|;
    TurnKeeps(w.machine, move.turn.value);
    KernelAfter(w, move, n);
    ServedKept(After(w, move).machine.processes[n].program, w.kernel, move.step.value);
  }

  lemma SpawnIsCreate(w: Whole, move: Move)
    requires Possible(w, move)
    ensures move.turn.Some? && move.turn.value.Spawn? <==> move.step == Some(S.Create)
  {
  }

  lemma CreatedAfter(s: S.Sched, step: S.Step)
    requires S.Enabled(s, step)
    ensures S.Do(s, step).created == s.created + (if step == S.Create then 1 else 0)
  {
  }

  lemma SizesAfter(w: Whole, move: Move)
    requires Inv(w) && Possible(w, move)
    ensures var w' := After(w, move);
            && S.Inv(w'.kernel) && MachineInv(w'.machine) && w'.kernel.created == |w'.machine.processes|
            && |w.machine.processes| <= |w'.machine.processes| <= |w.machine.processes| + 1
            && (|w'.machine.processes| > |w.machine.processes| ==> move.turn.Some? && move.turn.value.Spawn?)
  {
    KernelAfter(w, move, 0);
    SpawnIsCreate(w, move);
    if move.turn.Some? { TurnKeeps(w.machine, move.turn.value); }
    if move.step.Some? { CreatedAfter(w.kernel, move.step.value); }
  }

  lemma LinkedAfter(w: Whole, move: Move, w': Whole, pid: nat)
    requires Inv(w) && Possible(w, move) && w' == After(w, move) && MachineInv(w'.machine)
    requires pid < |w'.machine.processes|
    ensures Linked(w', pid)
  {
    SizesAfter(w, move);
    if pid == |w.machine.processes| {
      NewLinked(w, move);
    } else if Moved(move) == Some(pid) {
      MovedLinked(w, move, pid);
    } else {
      OthersLinked(w, move, pid);
    }
  }

  // Whatever happens next, the kernel has every process where the machine has left it.
  lemma MoveKeepsInv(w: Whole, move: Move, w': Whole)
    requires Inv(w) && Possible(w, move) && w' == After(w, move)
    ensures Inv(w')
  {
    SizesAfter(w, move);
    forall pid: nat | pid < |w'.machine.processes| ensures Linked(w', pid) {
      LinkedAfter(w, move, w', pid);
    }
  }

  // ---------- Every run ----------

  // Move i leads from state i to the next.
  ghost predicate Next(ws: seq<Whole>, moves: seq<Move>, i: nat)
    requires |ws| == |moves| + 1 && i < |moves|
  {
    Possible(ws[i], moves[i]) && ws[i + 1] == After(ws[i], moves[i])
  }

  ghost predicate Run(ws: seq<Whole>, moves: seq<Move>) {
    && |ws| == |moves| + 1 && S.Initial(ws[0].kernel)
    && MachineInv(ws[0].machine) && ws[0].machine.processes == [] && !ws[0].timed
    && forall i: nat {:trigger Next(ws, moves, i)} :: i < |moves| ==> Next(ws, moves, i)
  }

  lemma {:induction false} RunKeepsInv(ws: seq<Whole>, moves: seq<Move>, n: nat)
    requires Run(ws, moves) && n < |ws|
    ensures Inv(ws[n])
    decreases n
  {
    if n == 0 {
      S.RunKeepsInv([ws[0].kernel], [], 0);
    } else {
      var i := n - 1;
      RunKeepsInv(ws, moves, i);
      assert Next(ws, moves, i);
      MoveKeepsInv(ws[i], moves[i], ws[n]);
    }
  }

  // Whom the kernel has on the CPU can run there: it is in memoria and in the machine, its counter is
  // at an instruction, it does not wait for a page or a device, and it has not ended.
  lemma WhoRunsCan(ws: seq<Whole>, moves: seq<Move>, n: nat)
    requires Run(ws, moves) && n < |ws| && ws[n].kernel.main.Running?
    ensures ws[n].kernel.main.pid > 0 && CanRun(ws[n].machine, ws[n].kernel.main.pid - 1)
  {
    RunKeepsInv(ws, moves, n);
    P.OnlyPlace(ws[n].kernel, ws[n].kernel.main.pid);
    assert Linked(ws[n], ws[n].kernel.main.pid - 1);
  }

  // ---------- Why processes come back ----------

  // The reason the kernel is given is the true one.
  lemma ReasonTells(m: State, pid: nat, left: nat)
    requires CanRun(m, pid)
    ensures var (m', why) := Dispatched(m, pid, left);
            var p, p' := m.processes[pid], m'.processes[pid];
            match ReasonOf(p', why)
            case Finished => p'.core.status == Exited
            case SegmentationFault => p'.core.status == Killed
            case PageFault => p'.core.status.Running? && p'.fault.Some?
            case Io(name) => p'.core.status.Waiting? && p'.core.status.device == name
            case Quantum => p'.core.status.Running? && p'.fault.None? && p'.core.pc == p.core.pc + left + 1
  {
    var (m', why) := Dispatched(m, pid, left);
    assert FaultRight(m'.mem, m'.processes[pid]);
    assert Advanced(m.processes[pid], m'.processes[pid], why);
  }

  // Move i gives the CPU to a process with a quantum.
  predicate Starts(ws: seq<Whole>, moves: seq<Move>, i: nat)
    requires i < |moves| && i < |ws|
  {
    moves[i].step == Some(S.Dispatch) && S.Choice(ws[i].kernel).Some? && S.UsesQuantum(ws[i].kernel)
  }

  lemma TimedNext(w: Whole, move: Move, w': Whole)
    requires Possible(w, move) && w' == After(w, move)
    ensures w'.kernel.policy == w.kernel.policy
    ensures w'.timed <==> w.timed || (move.step == Some(S.Dispatch) && S.UsesQuantum(w.kernel))
  {
  }

  lemma {:induction false} TimedIff(ws: seq<Whole>, moves: seq<Move>, n: nat)
    requires Run(ws, moves) && n < |ws|
    ensures ws[n].kernel.policy == ws[0].kernel.policy
    ensures ws[n].timed <==> exists i: nat :: i < n && Starts(ws, moves, i)
    decreases n
  {
    if n != 0 {
      var j := n - 1;
      TimedIff(ws, moves, j);
      assert Next(ws, moves, j);
      TimedNext(ws[j], moves[j], ws[n]);
      assert ws[n].timed <==> ws[j].timed || Starts(ws, moves, j);
      if ws[j].timed {
        var i: nat :| i < j && Starts(ws, moves, i);
        assert i < n;
      }
    }
  }

  // A process comes back because its quantum is over only in a run that has started one: so never under FIFO,
  // and under FEEDBACK only after some process was taken from READY 1.
  lemma QuantumNeedsStart(ws: seq<Whole>, moves: seq<Move>, n: nat) returns (i: nat)
    requires Run(ws, moves) && n < |moves| && moves[n].step == Some(S.Return(S.Quantum))
    ensures ws[0].kernel.policy != S.FIFO
    ensures i < n && moves[i].step == Some(S.Dispatch)
    ensures ws[0].kernel.policy == S.FEEDBACK ==> ws[i].kernel.ready1 != []
  {
    assert Next(ws, moves, n);
    TimedIff(ws, moves, n);
    i :| i < n && Starts(ws, moves, i);
    TimedIff(ws, moves, i);
  }

  // ---------- A run of the two is a run of each ----------

  function StepsOf(moves: seq<Move>, n: nat): seq<S.Step>
    requires n <= |moves|
  {
    if n == 0 then []
    else StepsOf(moves, n - 1) + if moves[n - 1].step.Some? then [moves[n - 1].step.value] else []
  }

  function TurnsOf(moves: seq<Move>, n: nat): seq<Turn>
    requires n <= |moves|
  {
    if n == 0 then []
    else TurnsOf(moves, n - 1) + if moves[n - 1].turn.Some? then [moves[n - 1].turn.value] else []
  }

  lemma KernelTakes(states: seq<S.Sched>, steps: seq<S.Step>, step: S.Step) returns (states': seq<S.Sched>)
    requires S.Run(states, steps) && S.Enabled(states[|steps|], step)
    ensures S.Run(states', steps + [step]) && states' == states + [S.Do(states[|steps|], step)]
  {
    states' := states + [S.Do(states[|steps|], step)];
    forall i: nat | i < |steps + [step]| ensures S.Next(states', steps + [step], i) {
      if i < |steps| { assert S.Next(states, steps, i); }
    }
  }

  // The steps of the kernel are a run of the scheduler.
  lemma {:induction false} KernelRun(ws: seq<Whole>, moves: seq<Move>, n: nat) returns (states: seq<S.Sched>)
    requires Run(ws, moves) && n < |ws|
    ensures S.Run(states, StepsOf(moves, n)) && states[|StepsOf(moves, n)|] == ws[n].kernel
    decreases n
  {
    if n == 0 {
      states := [ws[0].kernel];
    } else {
      var i := n - 1;
      states := KernelRun(ws, moves, i);
      assert Next(ws, moves, i);
      if moves[i].step.Some? {
        states := KernelTakes(states, StepsOf(moves, i), moves[i].step.value);
      } else {
        assert StepsOf(moves, n) == StepsOf(moves, i);
      }
    }
  }

  lemma MachineTakes(states: seq<State>, turns: seq<Turn>, turn: Turn) returns (states': seq<State>)
    requires Turns(states, turns) && MachineInv(states[|turns|]) && CanTake(states[|turns|], turn)
    ensures Turns(states', turns + [turn]) && states' == states + [Take(states[|turns|], turn)]
  {
    states' := states + [Take(states[|turns|], turn)];
    forall i: nat | i < |turns + [turn]| ensures Dispatch.Taken(states', turns + [turn], i) {
      if i < |turns| { assert Dispatch.Taken(states, turns, i); }
    }
  }

  lemma {:induction false} DispatchesPrefix(turns: seq<Turn>, more: seq<Turn>, n: nat, pid: nat)
    requires n <= |turns|
    ensures Dispatches(turns + more, n, pid) == Dispatches(turns, n, pid)
    decreases n
  {
    if n > 0 { DispatchesPrefix(turns, more, n - 1, pid); }
  }

  lemma {:induction false} FaultsPrefix(states: seq<State>, turns: seq<Turn>, states': seq<State>, turns': seq<Turn>,
                                        n: nat, pid: nat)
    requires |states| == |turns| + 1 && |states'| == |turns'| + 1 && states <= states' && turns <= turns'
    requires n <= |turns|
    ensures Faults(states', turns', n, pid) == Faults(states, turns, n, pid)
    decreases n
  {
    if n > 0 { FaultsPrefix(states, turns, states', turns', n - 1, pid); }
  }

  // How often the kernel sent process pid to the CPU in the first n moves.
  ghost function Sent(ws: seq<Whole>, moves: seq<Move>, n: nat, pid: nat): nat
    requires |ws| == |moves| + 1 && n <= |moves|
  {
    if n == 0 then 0
    else Sent(ws, moves, n - 1, pid)
         + S.One(moves[n - 1].step == Some(S.Dispatch) && ws[n].kernel.main == S.Running(pid + 1))
  }

  ghost predicate ComesBack(w: Whole, move: Move, pid: nat) {
    move.step.Some? && move.step.value.Return? && w.kernel.main == S.Running(pid + 1)
  }

  // How often it came back, and how often with a page fault.
  ghost function Back(ws: seq<Whole>, moves: seq<Move>, n: nat, pid: nat): nat
    requires |ws| == |moves| + 1 && n <= |moves|
  {
    if n == 0 then 0 else Back(ws, moves, n - 1, pid) + S.One(ComesBack(ws[n - 1], moves[n - 1], pid))
  }

  ghost function FaultsBack(ws: seq<Whole>, moves: seq<Move>, n: nat, pid: nat): nat
    requires |ws| == |moves| + 1 && n <= |moves|
  {
    if n == 0 then 0
    else FaultsBack(ws, moves, n - 1, pid)
         + S.One(ComesBack(ws[n - 1], moves[n - 1], pid) && moves[n - 1].step.value.reason == S.PageFault)
  }

  lemma OnCpuChanges(s: S.Sched, step: S.Step, s': S.Sched, n: nat)
    requires S.Enabled(s, step) && s' == S.Do(s, step)
    ensures S.One(s'.main == S.Running(n)) + S.One(step.Return? && s.main == S.Running(n))
         == S.One(s.main == S.Running(n)) + S.One(step == S.Dispatch && s'.main == S.Running(n))
  {
  }

  // Of the processes sent all came back but the one that is there.
  lemma {:induction false} SentAndBack(ws: seq<Whole>, moves: seq<Move>, n: nat, pid: nat)
    requires Run(ws, moves) && n < |ws|
    ensures Sent(ws, moves, n, pid) == Back(ws, moves, n, pid) + S.One(ws[n].kernel.main == S.Running(pid + 1))
    decreases n
  {
    if n > 0 {
      var i := n - 1;
      SentAndBack(ws, moves, i, pid);
      assert Next(ws, moves, i);
      if moves[i].step.Some? { OnCpuChanges(ws[i].kernel, moves[i].step.value, ws[n].kernel, pid + 1); }
    }
  }

  lemma FaultReason(m: State, pid: nat, left: nat)
    requires CanRun(m, pid)
    ensures var (m', why) := Dispatched(m, pid, left);
            ReasonOf(m'.processes[pid], why) == S.PageFault <==> m'.processes[pid].fault.Some?
  {
    assert Advanced(m.processes[pid], Dispatched(m, pid, left).0.processes[pid], Dispatched(m, pid, left).1);
  }

  // A process comes back in the turns that dispatch it,
  lemma BackIsDispatch(w: Whole, move: Move, pid: nat)
    requires Possible(w, move)
    ensures ComesBack(w, move, pid) <==> move.turn.Some? && move.turn.value.Dispatch? && move.turn.value.pid == pid
  {
  }

  // and with a page fault when it then waits for a page.
  lemma FaultBack(w: Whole, move: Move, pid: nat)
    requires Possible(w, move) && ComesBack(w, move, pid)
    ensures pid < |After(w, move).machine.processes|
    ensures move.step.value.reason == S.PageFault <==> After(w, move).machine.processes[pid].fault.Some?
  {
    FaultReason(w.machine, pid, move.turn.value.left);
  }

  // One more turn, and what it adds to the counts.
  lemma MachineTakesOne(states: seq<State>, turns: seq<Turn>, turn: Turn, pid: nat) returns (states': seq<State>)
    requires Turns(states, turns) && MachineInv(states[|turns|]) && CanTake(states[|turns|], turn)
    ensures var turns' := turns + [turn];
            var last, mine := Take(states[|turns|], turn), turn.Dispatch? && turn.pid == pid;
            && Turns(states', turns') && states'[|turns'|] == last
            && Dispatches(turns', |turns'|, pid) == Dispatches(turns, |turns|, pid) + S.One(mine)
            && Faults(states', turns', |turns'|, pid) == Faults(states, turns, |turns|, pid)
                 + S.One(mine && pid < |last.processes| && last.processes[pid].fault.Some?)
  {
    states' := MachineTakes(states, turns, turn);
    DispatchesPrefix(turns, [turn], |turns|, pid);
    FaultsPrefix(states, turns, states', turns + [turn], |turns|, pid);
  }

  // The machine's part of a run.
  ghost predicate IsMachinePart(states: seq<State>, turns: seq<Turn>, m: State, pid: nat, back: nat, faults: nat) {
    && Turns(states, turns) && states[|turns|] == m
    && Dispatches(turns, |turns|, pid) == back && Faults(states, turns, |turns|, pid) == faults
  }

  lemma MachinePartNext(states: seq<State>, turns: seq<Turn>, pid: nat, back: nat, faults: nat, w: Whole, move: Move,
                        w': Whole, turns': seq<Turn>)
    returns (states': seq<State>)
    requires IsMachinePart(states, turns, w.machine, pid, back, faults)
    requires Possible(w, move) && w' == After(w, move)
    requires turns' == turns + if move.turn.Some? then [move.turn.value] else []
    ensures IsMachinePart(states', turns', w'.machine, pid, back + S.One(ComesBack(w, move, pid)),
                          faults + S.One(ComesBack(w, move, pid) && move.step.value.reason == S.PageFault))
  {
    BackIsDispatch(w, move, pid);
    if ComesBack(w, move, pid) { FaultBack(w, move, pid); }
    if move.turn.Some? {
      states' := MachineTakesOne(states, turns, move.turn.value, pid);
    } else {
      states' := states;
      assert turns' == turns;
    }
  }

  // The turns of the machine are a run of dispatches, as many as the kernel saw come back.
  lemma {:induction false} MachineRun(ws: seq<Whole>, moves: seq<Move>, n: nat, pid: nat) returns (states: seq<State>)
    requires Run(ws, moves) && n < |ws|
    ensures IsMachinePart(states, TurnsOf(moves, n), ws[n].machine, pid,
                          Back(ws, moves, n, pid), FaultsBack(ws, moves, n, pid))
    decreases n
  {
    if n == 0 {
      states := [ws[0].machine];
    } else {
      var i := n - 1;
      states := MachineRun(ws, moves, i, pid);
      assert Next(ws, moves, i);
      states := MachinePartNext(states, TurnsOf(moves, i), pid, Back(ws, moves, i, pid), FaultsBack(ws, moves, i, pid),
                                ws[i], moves[i], ws[n], TurnsOf(moves, n));
    }
  }

  // In every run of the kernel with the machine, a process is sent to the CPU at most once for each of
  // its instructions, once for each page fault it comes back with, and the time it is there now.
  lemma SentBounded(ws: seq<Whole>, moves: seq<Move>, n: nat, pid: nat)
    requires Run(ws, moves) && n < |ws| && pid < |ws[n].machine.processes|
    ensures Sent(ws, moves, n, pid) <=
            |ws[n].machine.processes[pid].program| + FaultsBack(ws, moves, n, pid)
            + S.One(ws[n].kernel.main == S.Running(pid + 1))
  {
    SentAndBack(ws, moves, n, pid);
    var states := MachineRun(ws, moves, n, pid);
    var turns := TurnsOf(moves, n);
    DispatchesBounded(states, turns, |turns|, pid);
  }

  // ---------- No deadlock ----------

  // A program in its I/O has asked for a device there is.
  lemma AskedIsServed(p: Process, devices: seq<S.Device>)
    requires JustAsked(p) && p.core.pc <= ExitAt(p.program) && Served(p.program, devices)
    ensures CanServe(Some(Io(p.core.status.device, p.core.status.arg)), devices)
  {
    assert CanServe(Decode(p.program[p.core.pc - 1]), devices);
  }

  lemma ReasonServed(w: Whole, pid: nat, left: nat, reason: S.Reason)
    requires Inv(w) && w.kernel.main == S.Running(pid + 1) && CanRun(w.machine, pid)
    requires var (m', why) := Dispatched(w.machine, pid, left); reason == ReasonOf(m'.processes[pid], why)
    ensures S.Enabled(w.kernel, S.Return(reason))
  {
    var (m', why) := Dispatched(w.machine, pid, left);
    DispatchBelongs(w.machine, pid, left);
    P.OnlyPlace(w.kernel, pid + 1);
    assert Linked(w, pid);
    if why == INT_IO { AskedIsServed(m'.processes[pid], w.kernel.devices); }
  }

  // A quantum longer than the program never ends.
  lemma NoQuantumSoLong(m: State, pid: nat, left: nat)
    requires CanRun(m, pid) && left >= |m.processes[pid].program|
    ensures var (m', why) := Dispatched(m, pid, left); ReasonOf(m'.processes[pid], why) != S.Quantum
  {
    assert Advanced(m.processes[pid], Dispatched(m, pid, left).0.processes[pid], Dispatched(m, pid, left).1);
  }

  lemma RunningCan(w: Whole, pid: nat)
    requires Inv(w) && w.kernel.main == S.Running(pid + 1)
    ensures CanRun(w.machine, pid)
  {
    P.OnlyPlace(w.kernel, pid + 1);
    assert Linked(w, pid);
  }

  // The reason of a dispatch that no quantum cuts is one the kernel can be given.
  lemma TakenBack(w: Whole, pid: nat, left: nat) returns (reason: S.Reason)
    requires Inv(w) && w.kernel.main == S.Running(pid + 1) && CanRun(w.machine, pid)
    requires left >= |w.machine.processes[pid].program|
    ensures var (m', why) := Dispatched(w.machine, pid, left); reason == ReasonOf(m'.processes[pid], why)
    ensures S.Enabled(w.kernel, S.Return(reason)) && reason != S.Quantum
  {
    var (m', why) := Dispatched(w.machine, pid, left);
    reason := ReasonOf(m'.processes[pid], why);
    ReasonServed(w, pid, left, reason);
    NoQuantumSoLong(w.machine, pid, left);
  }

  // Whatever the process on the CPU does, the kernel can take it back.
  lemma CanComeBack(w: Whole, pid: nat) returns (move: Move)
    requires Inv(w) && w.kernel.main == S.Running(pid + 1)
    ensures Possible(w, move) && move.step.Some? && move.step.value.Return? && move.turn.Some?
    ensures !move.turn.value.Release?
  {
    RunningCan(w, pid);
    var left := |w.machine.processes[pid].program|;
    var reason := TakenBack(w, pid, left);
    move := Move(Some(S.Return(reason)), Some(Turn.Dispatch(pid, left)));
  }

  // A process that waits for a device can be given what it waits for.
  lemma CanResume(w: Whole, pid: nat)
    requires Inv(w) && pid < |w.machine.processes|
    requires P.PlaceOf(w.kernel, pid + 1) == P.AtDevice || P.PlaceOf(w.kernel, pid + 1) == P.AtConsole
    ensures CanTake(w.machine, Turn.IoDone(pid, 0))
  {
    assert Linked(w, pid);
    AskedIsServed(w.machine.processes[pid], w.kernel.devices);
  }

  lemma {:induction false} ServedIsThere(devices: seq<S.Device>, d: nat, pid: nat)
    requires d < |devices| && devices[d].server == S.Serving(pid)
    ensures S.AtDevices(devices, pid) > 0
  {
    if d < |devices| - 1 { ServedIsThere(devices[..|devices| - 1], d, pid); }
  }

  lemma CanServeNext(w: Whole, step: S.Step, n: nat) returns (move: Move)
    requires Inv(w) && S.Enabled(w.kernel, step)
    requires step == S.ConsoleDone(n) || (step.DeviceDone? && w.kernel.devices[step.d].server == S.Serving(n))
    ensures Possible(w, move) && move.step == Some(step) && move.turn.Some? && move.turn.value.IoDone?
  {
    if step.DeviceDone? { ServedIsThere(w.kernel.devices, step.d, n); }
    P.OnlyPlace(w.kernel, n);
    CanResume(w, n - 1);
    move := Move(Some(step), Some(Turn.IoDone(n - 1, 0)));
  }

  // A step of the other threads, with what the machine does in it.
  lemma CanGoOn(w: Whole, step: S.Step) returns (move: Move)
    requires Inv(w) && S.Enabled(w.kernel, step) && step != S.Create && !step.Return?
    ensures Possible(w, move) && move.step != Some(S.Create) && (move.turn.Some? ==> !move.turn.value.Release?)
  {
    match step
    case ConsoleDone(n) => move := CanServeNext(w, step, n);
    case DeviceDone(d) => move := CanServeNext(w, step, w.kernel.devices[d].server.pid);
    case FaultResolved(n) =>
      P.OnlyPlace(w.kernel, n);
      move := if w.machine.processes[n - 1].fault.Some? then Move(None, Some(Turn.Resolve(n - 1)))
              else Move(Some(step), None);
    case _ => move := Move(Some(step), None);
  }

  // While some process has not ended, some move is possible that is neither the arrival of a new process
  // nor the release of an old one: what the kernel waits for, the machine delivers.
  lemma NeverStuck(ws: seq<Whole>, moves: seq<Move>, n: nat, pid: nat) returns (move: Move)
    requires Run(ws, moves) && n < |ws| && pid < |ws[n].machine.processes|
    requires !ws[n].machine.processes[pid].core.status.Exited? && !ws[n].machine.processes[pid].core.status.Killed?
    ensures Possible(ws[n], move) && move.step != Some(S.Create) && (move.turn.Some? ==> !move.turn.value.Release?)
  {
    RunKeepsInv(ws, moves, n);
    var w := ws[n];
    assert Linked(w, pid);
    P.OnlyPlace(w.kernel, pid + 1);
    if w.kernel.main.Running? {
      P.OnlyPlace(w.kernel, w.kernel.main.pid);
      move := CanComeBack(w, w.kernel.main.pid - 1);
    } else {
      var states := KernelRun(ws, moves, n);
      var step := S.NoDeadlock(states, StepsOf(moves, n), |StepsOf(moves, n)|, pid + 1);
      move := CanGoOn(w, step);
    }
  }
}
