// The one place of each process in the scheduler, and how a step moves it.
module Places {
  import opened Words
  import opened Scheduling

  datatype Place = Nowhere | Ready | OnCpu | AtDevice | AtConsole | OnFault | Ended

  // In NEW or in one of the READY queues.
  function Readies(s: Sched, pid: nat): nat {
    Count(s.newQueue, pid) + Count(s.ready1, pid) + Count(s.ready2, pid)
  }

  function PlaceOf(s: Sched, pid: nat): Place {
    if Readies(s, pid) > 0 then Ready
    else if AtDevices(s.devices, pid) > 0 then AtDevice
    else if s.main == Running(pid) then OnCpu
    else if pid in s.console then AtConsole
    else if pid in s.faulted then OnFault
    else if pid in s.ended then Ended
    else Nowhere
  }

  function Reaches(reason: Reason): Place {
    match reason
    case Finished => Ended
    case SegmentationFault => Ended
    case Quantum => Ready
    case PageFault => OnFault
    case Io(name) => if Console(name) then AtConsole else AtDevice
  }

  // Where a step leaves a process.
  function NextPlace(s: Sched, step: Step, pid: nat): Place
    requires Enabled(s, step)
  {
    match step
    case Create => if pid == s.created + 1 then Ready else PlaceOf(s, pid)
    case Dispatch => if pid == Chosen(s) then OnCpu else PlaceOf(s, pid)
    case Return(reason) => if s.main == Running(pid) then Reaches(reason) else PlaceOf(s, pid)
    case ConsoleDone(q) => if q == pid then Ready else PlaceOf(s, pid)
    case FaultResolved(q) => if q == pid then Ready else PlaceOf(s, pid)
    case DeviceDone(d) => if s.devices[d].server == Serving(pid) then Ready else PlaceOf(s, pid)
    case _ => PlaceOf(s, pid)
  }

  // A process is at the place of which there is a sign, since it is at one place only.
  lemma OnlyPlace(s: Sched, pid: nat)
    requires Inv(s)
    ensures Readies(s, pid) > 0 <==> PlaceOf(s, pid) == Ready
    ensures AtDevices(s.devices, pid) > 0 <==> PlaceOf(s, pid) == AtDevice
    ensures s.main == Running(pid) <==> PlaceOf(s, pid) == OnCpu
    ensures pid in s.console <==> PlaceOf(s, pid) == AtConsole
    ensures pid in s.faulted <==> PlaceOf(s, pid) == OnFault
    ensures pid in s.ended <==> PlaceOf(s, pid) == Ended
    ensures PlaceOf(s, pid) == Nowhere <==> !(1 <= pid <= s.created)
  {
    assert Places(s, pid) == One(1 <= pid <= s.created);
  }

  lemma PlaceDispatched(s: Sched, pid: nat)
    requires Inv(s) && Enabled(s, Dispatch) && Inv(Do(s, Dispatch))
    ensures PlaceOf(Do(s, Dispatch), pid) == NextPlace(s, Dispatch, pid)
  {
    OnlyPlace(s, pid);
    OnlyPlace(Do(s, Dispatch), pid);
    match Choice(s).value
    case Ready1 => CountPop(s.ready1, pid);
    case Ready2 => CountPop(s.ready2, pid);
    case New => CountPop(s.newQueue, pid);
  }

  lemma PlaceReturned(s: Sched, reason: Reason, pid: nat)
    requires Inv(s) && Enabled(s, Return(reason)) && Inv(Do(s, Return(reason)))
    ensures PlaceOf(Do(s, Return(reason)), pid) == NextPlace(s, Return(reason), pid)
  {
    OnlyPlace(s, pid);
    OnlyPlace(Do(s, Return(reason)), pid);
    match reason
    case Quantum =>
      CountPush(s.ready1, s.main.pid, pid);
      CountPush(s.ready2, s.main.pid, pid);
    case Io(name) =>
      if !Console(name) {
        var d := DeviceIndex(s.devices, name).value;
        CountPush(s.devices[d].queue, s.main.pid, pid);
        DevicesChange(s.devices, d, s.devices[d].(queue := s.devices[d].queue + [s.main.pid]), pid);
      }
    case _ =>
  }

  lemma PlaceDevice(s: Sched, step: Step, pid: nat)
    requires Inv(s) && Enabled(s, step) && Inv(Do(s, step))
    requires step == Post || step == Wait || step == PostOwn || step.DeviceWait? || step.DevicePop? || step.DeviceDone?
    ensures PlaceOf(Do(s, step), pid) == NextPlace(s, step, pid)
  {
    OnlyPlace(s, pid);
    OnlyPlace(Do(s, step), pid);
    match step
    case PostOwn =>
      if s.main.device.Some? {
        var d := s.main.device.value;
        DevicesChange(s.devices, d, s.devices[d].(sem := s.devices[d].sem + 1), pid);
      }
    case DeviceWait(d) =>
      DevicesChange(s.devices, d, s.devices[d].(sem := s.devices[d].sem - 1, server := Taking), pid);
    case DevicePop(d) =>
      var device := s.devices[d];
      CountPop(device.queue, pid);
      DevicesChange(s.devices, d, device.(queue := device.queue[1..], server := Serving(device.queue[0])), pid);
    case DeviceDone(d) =>
      CountPush(s.ready1, s.devices[d].server.pid, pid);
      DevicesChange(s.devices, d, s.devices[d].(server := Idle), pid);
    case _ =>
  }

  lemma PlaceCreated(s: Sched, pid: nat)
    ensures PlaceOf(Do(s, Create), pid) == NextPlace(s, Create, pid)
  {
    if |s.ready1| < s.maxDegree {
      CountPush(s.ready1, s.created + 1, pid);
    } else {
      CountPush(s.newQueue, s.created + 1, pid);
    }
    assert Readies(Do(s, Create), pid) == Readies(s, pid) + One(pid == s.created + 1);
  }

  lemma PlaceUnblocked(s: Sched, step: Step, q: nat, pid: nat)
    requires Enabled(s, step) && (step == ConsoleDone(q) || step == FaultResolved(q))
    ensures PlaceOf(Do(s, step), pid) == NextPlace(s, step, pid)
  {
    CountPush(s.ready1, q, pid);
    assert Readies(Do(s, step), pid) == Readies(s, pid) + One(pid == q);
  }

  // Every step moves the process it is about to the place it is meant to go to, and no other.
  lemma PlaceStep(s: Sched, step: Step, pid: nat)
    requires Inv(s) && Enabled(s, step)
    ensures Inv(Do(s, step)) && PlaceOf(Do(s, step), pid) == NextPlace(s, step, pid)
  {
    StepKeepsInv(s, step);
    match step
    case Create => PlaceCreated(s, pid);
    case Dispatch => PlaceDispatched(s, pid);
    case Return(reason) => PlaceReturned(s, reason, pid);
    case ConsoleDone(q) => PlaceUnblocked(s, step, q, pid);
    case FaultResolved(q) => PlaceUnblocked(s, step, q, pid);
    case _ => PlaceDevice(s, step, pid);
  }
}
