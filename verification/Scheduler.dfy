// The scheduler's functions as the kernel runs them, each a short sequence of steps of module
// Scheduling when no other thread comes in between.
module Scheduler {
  import opened Words
  import opened Scheduling

  class Kernel {
    const policy: Policy
    const maxDegreeMultiprogramming: int
    var processCount: nat
    var newQueue: seq<nat>
    var ready1Queue: seq<nat>
    var ready2Queue: seq<nat>
    var canExecute: nat
    var devices: seq<Device>      // io_queues, io_semaphores and the device threads
    ghost var owed: nat
    ghost var main: Main
    ghost var console: set<nat>
    ghost var faulted: set<nat>
    ghost var ended: set<nat>

    ghost function State(): Sched
      reads this
    {
      Sched(policy, maxDegreeMultiprogramming, processCount, newQueue, ready1Queue, ready2Queue, canExecute, owed,
            main, devices, console, faulted, ended)
    }

    // initialize_scheduller
    constructor (policy: Policy, maxDegree: int, names: seq<string>)
      ensures Initial(State()) && this.policy == policy && maxDegreeMultiprogramming == maxDegree
      ensures |devices| == |names| && forall d :: 0 <= d < |names| ==> devices[d].name == names[d]
    {
      this.policy, maxDegreeMultiprogramming, processCount := policy, maxDegree, 0;
      newQueue, ready1Queue, ready2Queue, canExecute := [], [], [], 0;
      owed, main, console, faulted, ended := 0, Waiting, {}, {}, {};
      var list: seq<Device> := [];
      while |list| < |names|
        invariant |list| <= |names|
        invariant forall d :: 0 <= d < |list| ==> list[d] == Device(names[d], [], 0, Idle)
      {
        list := list + [Device(names[|list|], [], 0, Idle)];
      }
      devices := list;
    }

    // The rotation of one queue: pop and push as many times as the queue is long.
    static method Rotate(queue: seq<nat>) returns (rotated: seq<nat>, pids: seq<nat>)
      ensures rotated == queue && pids == queue
    {
      rotated, pids := queue, [];
      var i := 0;
      while i < |rotated|
        invariant i <= |rotated| == |queue|
        invariant rotated == queue[i..] + queue[..i] && pids == queue[..i]
      {
        var pcb := rotated[0];
        pids := pids + [pcb];
        rotated := rotated[1..] + [pcb];
        i := i + 1;
        assert queue[..i] == queue[..i - 1] + [pcb];
      }
    }

    // log_ready reports the queues in order and leaves them as they were.
    method LogReady() returns (pids1: seq<nat>, pids2: seq<nat>)
      modifies this`ready1Queue, this`ready2Queue
      ensures State() == old(State())
      ensures pids1 == ready1Queue && pids2 == if policy == FEEDBACK then ready2Queue else []
    {
      ready1Queue, pids1 := Rotate(ready1Queue);
      pids2 := [];
      if policy == FEEDBACK {
        ready2Queue, pids2 := Rotate(ready2Queue);
      }
    }

    // create_process and new_state
    method NewState() returns (pid: nat)
      modifies this`processCount, this`newQueue, this`ready1Queue, this`canExecute
      ensures State() == Do(Do(old(State()), Create), Post) && pid == old(processCount) + 1
    {
      processCount := processCount + 1;
      pid := processCount;
      if |ready1Queue| < maxDegreeMultiprogramming {
        ready1Queue := ready1Queue + [pid];
      } else {
        newQueue := newQueue + [pid];
      }
      canExecute := canExecute + 1;
    }

    method ReadyStateFromQuantum(pid: nat)
      requires main == Running(pid)
      modifies this`ready1Queue, this`ready2Queue, this`canExecute, this`main
      ensures State() == Do(Do(old(State()), Return(Quantum)), PostOwn)
    {
      match policy {
        case FEEDBACK => ready2Queue := ready2Queue + [pid];
        case _ => ready1Queue := ready1Queue + [pid];
      }
      var pids1, pids2 := LogReady();
      canExecute := canExecute + 1;
      main := Waiting;
    }

    // ready_state_from_io, for a process a console thread was waiting for
    method ReadyStateFromConsole(pid: nat)
      requires pid in console
      modifies this`ready1Queue, this`ready2Queue, this`canExecute, this`console
      ensures State() == Do(Do(old(State()), ConsoleDone(pid)), Post)
    {
      console := console - {pid};
      ready1Queue := ready1Queue + [pid];
      var pids1, pids2 := LogReady();
      canExecute := canExecute + 1;
    }

    method ReadyStateFromPageFault(pid: nat)
      requires pid in faulted
      modifies this`ready1Queue, this`ready2Queue, this`canExecute, this`faulted
      ensures State() == Do(Do(old(State()), FaultResolved(pid)), Post)
    {
      faulted := faulted - {pid};
      ready1Queue := ready1Queue + [pid];
      var pids1, pids2 := LogReady();
      canExecute := canExecute + 1;
    }

    // block_state: a thread of its own for the console devices, the device's queue for the others
    method BlockState(pid: nat, device: string)
      requires main == Running(pid) && (Console(device) || DeviceIndex(devices, device).Some?)
      modifies this`devices, this`main, this`console
      ensures var s := Do(old(State()), Return(Io(device)));
              State() == if Console(device) then s else Do(s, PostOwn)
    {
      main := Waiting;
      if device == "TECLADO" || device == "PANTALLA" {
        console := console + {pid};
      } else {
        var d := DeviceIndex(devices, device).value;
        devices := devices[d := devices[d].(queue := devices[d].queue + [pid])];
        devices := devices[d := devices[d].(sem := devices[d].sem + 1)];
      }
    }

    // One round of handle_io, its semaphore being up.
    method HandleIo(d: nat) returns (pid: nat)
      requires SemaphoresRight(State()) && d < |devices| && devices[d].server == Idle && devices[d].sem > 0
      modifies this`devices, this`ready1Queue, this`ready2Queue, this`canExecute
      ensures Enabled(old(State()), DeviceWait(d)) && Enabled(Do(old(State()), DeviceWait(d)), DevicePop(d))
      ensures State() == Do(Do(Do(Do(old(State()), DeviceWait(d)), DevicePop(d)), DeviceDone(d)), Post)
      ensures pid == old(devices[d].queue[0])
    {
      var device := devices[d];
      pid := device.queue[0];
      devices := devices[d := device.(sem := device.sem - 1, queue := device.queue[1..])];
      ready1Queue := ready1Queue + [pid];
      var pids1, pids2 := LogReady();
      canExecute := canExecute + 1;
    }

    // execute_algorithm, its semaphore being up: some queue holds a process.
    method ExecuteAlgorithm() returns (pid: nat, useQuantum: bool)
      requires Inv(State()) && main == Waiting && canExecute > 0
      modifies this`newQueue, this`ready1Queue, this`ready2Queue, this`canExecute, this`main
      ensures var s := Do(old(State()), Wait);
              Enabled(s, Dispatch) && State() == Do(s, Dispatch) && main == Running(pid) && useQuantum == UsesQuantum(s)
      ensures old(ready1Queue) != [] ==>
                && pid == old(ready1Queue)[0] && ready1Queue == old(ready1Queue)[1..]
                && ready2Queue == old(ready2Queue) && newQueue == old(newQueue)
                && (useQuantum <==> policy != FIFO)
      ensures old(ready1Queue) == [] && policy == FEEDBACK && old(ready2Queue) != [] ==>
                && pid == old(ready2Queue)[0] && ready2Queue == old(ready2Queue)[1..]
                && ready1Queue == [] && newQueue == old(newQueue) && !useQuantum
      ensures old(ready1Queue) == [] && (policy != FEEDBACK || old(ready2Queue) == []) ==>
                && old(newQueue) != [] && pid == old(newQueue)[0] && newQueue == old(newQueue)[1..]
                && ready1Queue == [] && ready2Queue == old(ready2Queue) && (useQuantum <==> policy == RR)
    {
      canExecute := canExecute - 1;
      useQuantum := policy == RR;
      match policy {
        case FEEDBACK =>
          if |ready1Queue| > 0 {
            pid := ready1Queue[0];
            ready1Queue := ready1Queue[1..];
            useQuantum := true;
          } else if |ready2Queue| > 0 {
            pid := ready2Queue[0];
            ready2Queue := ready2Queue[1..];
          } else {
            pid := newQueue[0];
            newQueue := newQueue[1..];
          }
        case _ =>
          if |ready1Queue| > 0 {
            pid := ready1Queue[0];
            ready1Queue := ready1Queue[1..];
          } else {
            pid := newQueue[0];
            newQueue := newQueue[1..];
          }
      }
      main := Running(pid);
    }

    // What wait_cpu_dispatch does with a process the CPU gives back.
    method Receive(pid: nat, reason: Reason)
      requires main == Running(pid) && Enabled(State(), Return(reason))
      modifies this`devices, this`main, this`console, this`faulted, this`ended
      modifies this`ready1Queue, this`ready2Queue, this`canExecute
      ensures var s := Do(old(State()), Return(reason));
              State() == if s.main.Posting? then Do(s, PostOwn) else s
    {
      match reason
      case Finished => ended, main := ended + {pid}, Waiting;
      case SegmentationFault => ended, main := ended + {pid}, Waiting;
      case Quantum => ReadyStateFromQuantum(pid);
      case PageFault => faulted, main := faulted + {pid}, Waiting;
      case Io(device) => BlockState(pid, device);
    }
  }
}
