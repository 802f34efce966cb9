// The kernel's scheduler as threads that push and pop shared queues and post and wait on semaphores.
// A push and its sem_post are two steps, and so are a sem_wait and the pop behind it.
module Scheduling {
  import opened Words

  datatype Policy = FIFO | RR | FEEDBACK

  // The thread of one device: before sem_wait, between sem_wait and pop, or serving a process.
  datatype Server = Idle | Taking | Serving(pid: nat)

  datatype Device = Device(name: string, queue: seq<nat>, sem: nat, server: Server)

  // The dispatching thread: before sem_wait, before its pop, waiting for the CPU to give the process
  // back, or about to post can_execute (None) or the semaphore of a device.
  datatype Main = Waiting | Granted | Running(pid: nat) | Posting(device: Option<nat>)

  datatype Sched = Sched(
    policy: Policy,
    maxDegree: int,
    created: nat,           // processes are numbered from 1
    newQueue: seq<nat>,
    ready1: seq<nat>,
    ready2: seq<nat>,
    canExecute: nat,
    owed: nat,              // threads that pushed a process and have not posted can_execute yet
    main: Main,
    devices: seq<Device>,
    console: set<nat>,      // blocked on TECLADO or PANTALLA
    faulted: set<nat>,      // blocked on a page fault
    ended: set<nat>)

  // Why the CPU gives a process back.
  datatype Reason = Finished | SegmentationFault | Quantum | PageFault | Io(device: string)

  datatype Step =
    | Create | Post
    | Wait | Dispatch | Return(reason: Reason) | PostOwn
    | ConsoleDone(pid: nat) | FaultResolved(pid: nat)
    | DeviceWait(d: nat) | DevicePop(d: nat) | DeviceDone(d: nat)

  // dictionary_get
  function DeviceIndex(devices: seq<Device>, name: string): (d: Option<nat>)
    ensures d.Some? ==> d.value < |devices| && devices[d.value].name == name
    ensures d.None? ==> forall i :: 0 <= i < |devices| ==> devices[i].name != name
  {
    if devices == [] then None
    else if devices[|devices| - 1].name == name then Some(|devices| - 1)
    else DeviceIndex(devices[..|devices| - 1], name)
  }

  predicate Console(name: string) {
    name == "TECLADO" || name == "PANTALLA"
  }

  // execute_algorithm: the queue whose head is taken; None where the source would send an unset pointer.
  datatype Queue = New | Ready1 | Ready2

  function Choice(s: Sched): Option<Queue> {
    if s.ready1 != [] then Some(Ready1)
    else if s.policy == FEEDBACK && s.ready2 != [] then Some(Ready2)
    else if s.newQueue != [] then Some(New)
    else None
  }

  function Chosen(s: Sched): (pid: nat)
    requires Choice(s).Some?
  {
    match Choice(s).value
    case Ready1 => s.ready1[0]
    case Ready2 => s.ready2[0]
    case New => s.newQueue[0]
  }

  // Only a process taken from READY 1 runs with a quantum under FEEDBACK, none under FIFO.
  function UsesQuantum(s: Sched): bool
    requires Choice(s).Some?
  {
    s.policy == RR || (s.policy == FEEDBACK && Choice(s).value == Ready1)
  }

  predicate Enabled(s: Sched, step: Step) {
    match step
    case Create => true
    case Post => s.owed > 0
    case Wait => s.main == Waiting && s.canExecute > 0
    case Dispatch => s.main == Granted && Choice(s).Some?
    case Return(reason) =>
      && s.main.Running?
      && (reason.Io? && !Console(reason.device) ==> DeviceIndex(s.devices, reason.device).Some?)
    case PostOwn => s.main.Posting? && (s.main.device.Some? ==> s.main.device.value < |s.devices|)
    case ConsoleDone(pid) => pid in s.console
    case FaultResolved(pid) => pid in s.faulted
    case DeviceWait(d) => d < |s.devices| && s.devices[d].server == Idle && s.devices[d].sem > 0
    case DevicePop(d) => d < |s.devices| && s.devices[d].server == Taking && s.devices[d].queue != []
    case DeviceDone(d) => d < |s.devices| && s.devices[d].server.Serving?
  }

  // ready_state_from_quantum goes back to READY 2 under FEEDBACK.
  function Requeue(s: Sched, pid: nat): Sched {
    if s.policy == FEEDBACK then s.(ready2 := s.ready2 + [pid]) else s.(ready1 := s.ready1 + [pid])
  }

  function TakeChosen(s: Sched): Sched
    requires Choice(s).Some?
  {
    match Choice(s).value
    case Ready1 => s.(ready1 := s.ready1[1..])
    case Ready2 => s.(ready2 := s.ready2[1..])
    case New => s.(newQueue := s.newQueue[1..])
  }

  // The end of block_state for a device with a queue.
  function Enqueued(s: Sched, pid: nat, d: nat): Sched
    requires d < |s.devices|
  {
    s.(devices := s.devices[d := s.devices[d].(queue := s.devices[d].queue + [pid])], main := Posting(Some(d)))
  }

  function Returned(s: Sched, pid: nat, reason: Reason): Sched
    requires reason.Io? && !Console(reason.device) ==> DeviceIndex(s.devices, reason.device).Some?
  {
    match reason
    case Finished => s.(ended := s.ended + {pid}, main := Waiting)
    case SegmentationFault => s.(ended := s.ended + {pid}, main := Waiting)
    case Quantum => Requeue(s, pid).(main := Posting(None))
    case PageFault => s.(faulted := s.faulted + {pid}, main := Waiting)
    case Io(name) =>
      if Console(name) then s.(console := s.console + {pid}, main := Waiting)
      else
        Enqueued(s, pid, DeviceIndex(s.devices, name).value)
  }

  function Do(s: Sched, step: Step): Sched
    requires Enabled(s, step)
  {
    match step
    // new_state
    case Create =>
      var pid := s.created + 1;
      if |s.ready1| < s.maxDegree then s.(created := pid, ready1 := s.ready1 + [pid], owed := s.owed + 1)
      else s.(created := pid, newQueue := s.newQueue + [pid], owed := s.owed + 1)
    case Post => s.(canExecute := s.canExecute + 1, owed := s.owed - 1)
    case Wait => s.(canExecute := s.canExecute - 1, main := Granted)
    case Dispatch => TakeChosen(s).(main := Running(Chosen(s)))
    case Return(reason) => Returned(s, s.main.pid, reason)
    case PostOwn =>
      if s.main.device.None? then s.(canExecute := s.canExecute + 1, main := Waiting)
      else
        var d := s.main.device.value;
        s.(devices := s.devices[d := s.devices[d].(sem := s.devices[d].sem + 1)], main := Waiting)
    // ready_state_from_io and ready_state_from_page_fault
    case ConsoleDone(pid) => s.(console := s.console - {pid}, ready1 := s.ready1 + [pid], owed := s.owed + 1)
    case FaultResolved(pid) => s.(faulted := s.faulted - {pid}, ready1 := s.ready1 + [pid], owed := s.owed + 1)
    // handle_io
    case DeviceWait(d) => s.(devices := s.devices[d := s.devices[d].(sem := s.devices[d].sem - 1, server := Taking)])
    case DevicePop(d) =>
      var device := s.devices[d];
      s.(devices := s.devices[d := device.(queue := device.queue[1..], server := Serving(device.queue[0]))])
    case DeviceDone(d) =>
      var device := s.devices[d];
      s.(devices := s.devices[d := device.(server := Idle)],
         ready1 := s.ready1 + [device.server.pid], owed := s.owed + 1)
  }

  // ---------- Where a process is ----------

  function One(b: bool): nat {
    if b then 1 else 0
  }

  function Count(q: seq<nat>, pid: nat): nat {
    if q == [] then 0 else Count(q[..|q| - 1], pid) + One(q[|q| - 1] == pid)
  }

  function AtDevice(device: Device, pid: nat): nat {
    Count(device.queue, pid) + One(device.server == Serving(pid))
  }

  function AtDevices(devices: seq<Device>, pid: nat): nat {
    if devices == [] then 0 else AtDevices(devices[..|devices| - 1], pid) + AtDevice(devices[|devices| - 1], pid)
  }

  function Queued(s: Sched, pid: nat): nat {
    Count(s.newQueue, pid) + Count(s.ready1, pid) + Count(s.ready2, pid) + AtDevices(s.devices, pid)
  }

  function Elsewhere(s: Sched, pid: nat): nat {
    One(s.main == Running(pid)) + One(pid in s.console) + One(pid in s.faulted) + One(pid in s.ended)
  }

  // In how many places a process is.
  function Places(s: Sched, pid: nat): nat {
    Queued(s, pid) + Elsewhere(s, pid)
  }

  // Every process created is in exactly one place.
  ghost predicate Conserved(s: Sched) {
    forall pid: nat :: Places(s, pid) == One(1 <= pid <= s.created)
  }

  // Every process queued is matched by one post done, due, or already waited for.
  ghost predicate SemaphoresRight(s: Sched) {
    && s.canExecute + s.owed + One(s.main == Granted) + One(s.main == Posting(None))
       == |s.newQueue| + |s.ready1| + |s.ready2|
    && (s.main.Posting? && s.main.device.Some? ==> s.main.device.value < |s.devices|)
    && forall d :: 0 <= d < |s.devices| ==>
         s.devices[d].sem + One(s.devices[d].server == Taking) + One(s.main == Posting(Some(d))) == |s.devices[d].queue|
  }

  ghost predicate Inv(s: Sched) {
    Conserved(s) && SemaphoresRight(s) && (s.policy != FEEDBACK ==> s.ready2 == [])
  }

  lemma {:induction false} CountConcat(p: seq<nat>, q: seq<nat>, pid: nat)
    ensures Count(p + q, pid) == Count(p, pid) + Count(q, pid)
    decreases |q|
  {
    if q == [] {
      assert p + q == p;
    } else {
      CountConcat(p, q[..|q| - 1], pid);
      assert (p + q)[..|p + q| - 1] == p + q[..|q| - 1];
    }
  }

  lemma CountPush(q: seq<nat>, x: nat, pid: nat)
    ensures Count(q + [x], pid) == Count(q, pid) + One(x == pid)
  {
    assert (q + [x])[..|q|] == q;
  }

  lemma CountPop(q: seq<nat>, pid: nat)
    requires q != []
    ensures Count(q, pid) == One(q[0] == pid) + Count(q[1..], pid)
  {
    CountConcat([q[0]], q[1..], pid);
    assert [q[0]] + q[1..] == q;
    CountPush([], q[0], pid);
    assert [] + [q[0]] == [q[0]];
  }

  lemma {:induction false} DevicesChange(devices: seq<Device>, d: nat, device: Device, pid: nat)
    requires d < |devices|
    ensures AtDevices(devices[d := device], pid) + AtDevice(devices[d], pid)
         == AtDevices(devices, pid) + AtDevice(device, pid)
    decreases |devices|
  {
    var last := |devices| - 1;
    if d < last {
      DevicesChange(devices[..last], d, device, pid);
      assert devices[d := device][..last] == devices[..last][d := device];
    } else {
      assert devices[d := device][..last] == devices[..last];
    }
  }

  // How one step moves one process between places.
  lemma PlacesStep(s: Sched, step: Step, pid: nat)
    requires Inv(s) && Enabled(s, step)
    ensures Places(Do(s, step), pid) == Places(s, pid) + One(step == Create && pid == s.created + 1)
  {
    match step
    case Create => PlacesCreate(s, pid);
    case Dispatch => PlacesDispatch(s, pid);
    case Return(reason) => PlacesReturn(s, reason, pid);
    case ConsoleDone(q) => PlacesUnblocked(s, q, pid);
    case FaultResolved(q) => PlacesUnblocked(s, q, pid);
    case Post => PlacesSame(s, Do(s, step), pid);
    case Wait => PlacesSame(s, Do(s, step), pid);
    case _ => PlacesDevice(s, step, pid);
  }

  lemma PlacesSame(s: Sched, s': Sched, pid: nat)
    requires s'.newQueue == s.newQueue && s'.ready1 == s.ready1 && s'.ready2 == s.ready2 && s'.devices == s.devices
    requires s'.console == s.console && s'.faulted == s.faulted && s'.ended == s.ended
    requires s'.main == s.main || (!s.main.Running? && !s'.main.Running?)
    ensures Places(s', pid) == Places(s, pid)
  {
  }

  lemma PlacesCreate(s: Sched, pid: nat)
    ensures Places(Do(s, Create), pid) == Places(s, pid) + One(pid == s.created + 1)
  {
    if |s.ready1| < s.maxDegree {
      CountPush(s.ready1, s.created + 1, pid);
    } else {
      CountPush(s.newQueue, s.created + 1, pid);
    }
  }

  // From the console, or from a fault, to READY 1.
  lemma PlacesUnblocked(s: Sched, q: nat, pid: nat)
    ensures q in s.console ==> Places(Do(s, ConsoleDone(q)), pid) == Places(s, pid)
    ensures q in s.faulted ==> Places(Do(s, FaultResolved(q)), pid) == Places(s, pid)
  {
    CountPush(s.ready1, q, pid);
  }

  lemma PlacesDispatch(s: Sched, pid: nat)
    requires Enabled(s, Dispatch)
    ensures Places(Do(s, Dispatch), pid) == Places(s, pid)
  {
    match Choice(s).value
    case Ready1 => CountPop(s.ready1, pid);
    case Ready2 => CountPop(s.ready2, pid);
    case New => CountPop(s.newQueue, pid);
  }

  lemma PlacesDevice(s: Sched, step: Step, pid: nat)
    requires Enabled(s, step) && (step == PostOwn || step.DeviceWait? || step.DevicePop? || step.DeviceDone?)
    ensures Places(Do(s, step), pid) == Places(s, pid)
  {
    match step
    case PostOwn => PlacesPosted(s, pid);
    case DeviceWait(d) =>
      DevicesChange(s.devices, d, s.devices[d].(sem := s.devices[d].sem - 1, server := Taking), pid);
    case DevicePop(d) =>
      var device := s.devices[d];
      CountPop(device.queue, pid);
      DevicesChange(s.devices, d, device.(queue := device.queue[1..], server := Serving(device.queue[0])), pid);
    case DeviceDone(d) =>
      CountPush(s.ready1, s.devices[d].server.pid, pid);
      DevicesChange(s.devices, d, s.devices[d].(server := Idle), pid);
  }

  lemma PlacesPosted(s: Sched, pid: nat)
    requires Enabled(s, PostOwn)
    ensures Places(Do(s, PostOwn), pid) == Places(s, pid)
  {
    if s.main.device.Some? {
      var d := s.main.device.value;
      DevicesChange(s.devices, d, s.devices[d].(sem := s.devices[d].sem + 1), pid);
    }
  }

  lemma PlacesReturn(s: Sched, reason: Reason, pid: nat)
    requires Enabled(s, Return(reason)) && Places(s, s.main.pid) <= 1
    ensures Places(Do(s, Return(reason)), pid) == Places(s, pid)
  {
    match reason
    case Quantum => PlacesPreempted(s, pid);
    case Io(name) =>
      if Console(name) {
        PlacesBlocked(s, reason, pid);
      } else {
        PlacesEnqueued(s, DeviceIndex(s.devices, name).value, pid);
      }
    case _ => PlacesBlocked(s, reason, pid);
  }

  lemma PlacesPreempted(s: Sched, pid: nat)
    requires s.main.Running?
    ensures Places(Requeue(s, s.main.pid).(main := Posting(None)), pid) == Places(s, pid)
  {
    if s.policy == FEEDBACK {
      CountPush(s.ready2, s.main.pid, pid);
    } else {
      CountPush(s.ready1, s.main.pid, pid);
    }
  }

  // Into one of the sets, where the process was not before.
  lemma PlacesBlocked(s: Sched, reason: Reason, pid: nat)
    requires Enabled(s, Return(reason)) && Places(s, s.main.pid) <= 1
    requires reason != Quantum && (reason.Io? ==> Console(reason.device))
    ensures Places(Do(s, Return(reason)), pid) == Places(s, pid)
  {
    var s' := Do(s, Return(reason));
    assert Queued(s', pid) == Queued(s, pid);
    assert Elsewhere(s, s.main.pid) <= 1;
    assert Elsewhere(s', pid) == Elsewhere(s, pid);
  }

  lemma PlacesEnqueued(s: Sched, d: nat, pid: nat)
    requires s.main.Running? && d < |s.devices|
    ensures Places(Enqueued(s, s.main.pid, d), pid) == Places(s, pid)
  {
    var device := s.devices[d].(queue := s.devices[d].queue + [s.main.pid]);
    CountPush(s.devices[d].queue, s.main.pid, pid);
    DevicesChange(s.devices, d, device, pid);
  }

  // No step loses a process, puts it in two places, or lets a semaphore run ahead of its queue.
  lemma StepKeepsInv(s: Sched, step: Step)
    requires Inv(s) && Enabled(s, step)
    ensures Inv(Do(s, step))
  {
    var s' := Do(s, step);
    forall pid: nat ensures Places(s', pid) == One(1 <= pid <= s'.created) {
      PlacesStep(s, step, pid);
      assert Places(s, pid) == One(1 <= pid <= s.created);
    }
    SemaphoresStep(s, step);
  }

  lemma SemaphoresStep(s: Sched, step: Step)
    requires Inv(s) && Enabled(s, step)
    ensures SemaphoresRight(Do(s, step))
  {
    match step
    case Return(reason) => SemaphoresReturn(s, reason);
    case _ =>
  }

  lemma SemaphoresReturn(s: Sched, reason: Reason)
    requires SemaphoresRight(s) && Enabled(s, Return(reason))
    ensures SemaphoresRight(Do(s, Return(reason)))
  {
  }

  // ---------- Every run ----------

  ghost predicate Initial(s: Sched) {
    && s.created == 0 && s.newQueue == [] && s.ready1 == [] && s.ready2 == [] && s.canExecute == 0 && s.owed == 0
    && s.main == Waiting && s.console == {} && s.faulted == {} && s.ended == {}
    && forall d :: 0 <= d < |s.devices| ==>
         s.devices[d].queue == [] && s.devices[d].sem == 0 && s.devices[d].server == Idle
  }

  // Step i leads from state i to the next.
  ghost predicate Next(states: seq<Sched>, steps: seq<Step>, i: nat)
    requires |states| == |steps| + 1 && i < |steps|
  {
    Enabled(states[i], steps[i]) && states[i + 1] == Do(states[i], steps[i])
  }

  ghost predicate Run(states: seq<Sched>, steps: seq<Step>) {
    && |states| == |steps| + 1 && Initial(states[0])
    && forall i: nat {:trigger Next(states, steps, i)} :: i < |steps| ==> Next(states, steps, i)
  }

  lemma {:induction false} NowhereYet(devices: seq<Device>, pid: nat)
    requires forall d :: 0 <= d < |devices| ==> devices[d].queue == [] && devices[d].server == Idle
    ensures AtDevices(devices, pid) == 0
  {
    if devices != [] { NowhereYet(devices[..|devices| - 1], pid); }
  }

  lemma {:induction false} RunKeepsInv(states: seq<Sched>, steps: seq<Step>, n: nat)
    requires Run(states, steps) && n < |states|
    ensures Inv(states[n])
    decreases n
  {
    if n == 0 {
      forall pid: nat ensures Places(states[0], pid) == 0 { NowhereYet(states[0].devices, pid); }
    } else {
      RunKeepsInv(states, steps, n - 1);
      assert Next(states, steps, n - 1);
      StepKeepsInv(states[n - 1], steps[n - 1]);
    }
  }

  // In every run each process created is in exactly one place, semaphores never exceed what their
  // queues hold, READY 2 is empty outside FEEDBACK, and whoever waited on a semaphore finds a process.
  lemma ProcessesConserved(states: seq<Sched>, steps: seq<Step>, n: nat)
    requires Run(states, steps) && n < |states|
    ensures var s := states[n];
            && (forall pid: nat :: Places(s, pid) == One(1 <= pid <= s.created))
            && s.canExecute <= |s.newQueue| + |s.ready1| + |s.ready2|
            && (forall d :: 0 <= d < |s.devices| ==> s.devices[d].sem <= |s.devices[d].queue|)
            && (s.policy != FEEDBACK ==> s.ready2 == [])
            && (s.main == Granted ==> Enabled(s, Dispatch))
            && forall d :: 0 <= d < |s.devices| && s.devices[d].server == Taking ==> Enabled(s, DevicePop(d))
  {
    RunKeepsInv(states, steps, n);
  }

  lemma {:induction false} DeviceWith(devices: seq<Device>, pid: nat) returns (d: nat)
    requires AtDevices(devices, pid) > 0
    ensures d < |devices| && AtDevice(devices[d], pid) > 0
  {
    var last := |devices| - 1;
    if AtDevice(devices[last], pid) > 0 {
      d := last;
    } else {
      d := DeviceWith(devices[..last], pid);
    }
  }

  // No wakeup is ever lost: while some process has not ended, some step other than the arrival of a
  // new process can be taken.
  lemma NoDeadlock(states: seq<Sched>, steps: seq<Step>, n: nat, pid: nat) returns (step: Step)
    requires Run(states, steps) && n < |states|
    requires 1 <= pid <= states[n].created && pid !in states[n].ended
    ensures step != Create && Enabled(states[n], step)
  {
    RunKeepsInv(states, steps, n);
    var s := states[n];
    assert Places(s, pid) == 1;
    if s.main.Running? {
      step := Return(Finished);
    } else if s.main.Posting? {
      step := PostOwn;
    } else if s.main == Granted {
      step := Dispatch;
    } else if pid in s.console {
      step := ConsoleDone(pid);
    } else if pid in s.faulted {
      step := FaultResolved(pid);
    } else if AtDevices(s.devices, pid) > 0 {
      var d := DeviceWith(s.devices, pid);
      step := match s.devices[d].server
        case Idle => DeviceWait(d)
        case Taking => DevicePop(d)
        case Serving(_) => DeviceDone(d);
    } else {
      assert s.newQueue != [] || s.ready1 != [] || s.ready2 != [];
      step := if s.owed > 0 then Post else Wait;
    }
  }

  // ---------- Bounded waiting ----------

  // Dispatches in steps [i, j).
  function Dispatches(steps: seq<Step>, i: nat, j: nat): nat
    requires i <= j <= |steps|
    decreases j
  {
    if i == j then 0 else Dispatches(steps, i, j - 1) + One(steps[j - 1] == Dispatch)
  }

  // READY 1 is first in, first out.
  lemma Ready1Fifo(s: Sched, step: Step, s': Sched, k: nat)
    requires Enabled(s, step) && s' == Do(s, step) && k < |s.ready1|
    ensures step != Dispatch ==> k < |s'.ready1| && s'.ready1[k] == s.ready1[k]
    ensures step == Dispatch && k > 0 ==> k - 1 < |s'.ready1| && s'.ready1[k - 1] == s.ready1[k]
    ensures step == Dispatch && k == 0 ==> s'.main == Running(s.ready1[0])
  {
  }

  // One step of a run, for the process at index k.
  lemma NextInReady1(states: seq<Sched>, steps: seq<Step>, i: nat, k: nat)
    requires Run(states, steps) && i < |steps| && k < |states[i].ready1|
    ensures steps[i] != Dispatch ==> k < |states[i + 1].ready1| && states[i + 1].ready1[k] == states[i].ready1[k]
    ensures steps[i] == Dispatch && k > 0 ==>
              k - 1 < |states[i + 1].ready1| && states[i + 1].ready1[k - 1] == states[i].ready1[k]
    ensures steps[i] == Dispatch && k == 0 ==> states[i + 1].main == Running(states[i].ready1[0])
  {
    assert Next(states, steps, i);
    Ready1Fifo(states[i], steps[i], states[i + 1], k);
  }

  lemma {:induction false} MovesUp(states: seq<Sched>, steps: seq<Step>, i: nat, j: nat, k: nat)
    requires Run(states, steps) && i <= j < |states| && k < |states[i].ready1| && Dispatches(steps, i, j) <= k
    ensures var left := k - Dispatches(steps, i, j);
            left < |states[j].ready1| && states[j].ready1[left] == states[i].ready1[k]
    decreases j
  {
    if i < j {
      MovesUp(states, steps, i, j - 1, k);
      NextInReady1(states, steps, j - 1, k - Dispatches(steps, i, j - 1));
    }
  }

  // A process at index k of READY 1 moves one place up at each dispatch and is the one chosen at the
  // (k+1)-th, whatever else happens in between and under every policy.
  lemma BoundedWaiting(states: seq<Sched>, steps: seq<Step>, i: nat, j: nat, k: nat)
    requires Run(states, steps) && i <= j < |steps| && k < |states[i].ready1| && Dispatches(steps, i, j) <= k
    ensures var left := k - Dispatches(steps, i, j);
            && left < |states[j].ready1| && states[j].ready1[left] == states[i].ready1[k]
            && (steps[j] == Dispatch && left == 0 ==> states[j + 1].main == Running(states[i].ready1[k]))
  {
    MovesUp(states, steps, i, j, k);
    NextInReady1(states, steps, j, k - Dispatches(steps, i, j));
  }
}
