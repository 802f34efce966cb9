// What each step does to the scheduler's queues, said on the queues themselves.
module Queues {
  import opened Words
  import opened Scheduling

  // Everything but NEW, the READY queues and the process on the CPU.
  predicate RestKept(s: Sched, s': Sched) {
    && s'.policy == s.policy && s'.maxDegree == s.maxDegree && s'.created == s.created
    && s'.canExecute == s.canExecute && s'.owed == s.owed && s'.devices == s.devices
    && s'.console == s.console && s'.faulted == s.faulted && s'.ended == s.ended
  }

  // Who runs next: the head of READY 1; when READY 1 is empty, under FEEDBACK, the head of READY 2; the head
  // of NEW only when no READY queue in use has any. The queues not taken from stay as they are.
  lemma DispatchTakes(s: Sched)
    requires Enabled(s, Dispatch)
    ensures RestKept(s, Do(s, Dispatch))
    ensures s.ready1 != [] ==>
              Do(s, Dispatch) == s.(main := Running(s.ready1[0]), ready1 := s.ready1[1..])
    ensures s.ready1 == [] && s.policy == FEEDBACK && s.ready2 != [] ==>
              Do(s, Dispatch) == s.(main := Running(s.ready2[0]), ready2 := s.ready2[1..])
    ensures s.ready1 == [] && (s.policy != FEEDBACK || s.ready2 == []) ==>
              s.newQueue != [] && Do(s, Dispatch) == s.(main := Running(s.newQueue[0]), newQueue := s.newQueue[1..])
  {
  }

  // Which dispatches start a quantum: none under FIFO, all under RR, those from READY 1 under FEEDBACK.
  lemma QuantumGiven(s: Sched)
    requires Enabled(s, Dispatch)
    ensures s.policy == FIFO ==> !UsesQuantum(s)
    ensures s.policy == RR ==> UsesQuantum(s)
    ensures s.policy == FEEDBACK ==> (UsesQuantum(s) <==> s.ready1 != [])
  {
  }

  // A new process gets the next number and goes to the end of READY 1 while that is shorter than the limit,
  // to the end of NEW else; its post is due.
  lemma Created(s: Sched)
    ensures var s', pid := Do(s, Create), s.created + 1;
            s' == if |s.ready1| < s.maxDegree
                  then s.(created := pid, owed := s.owed + 1, ready1 := s.ready1 + [pid])
                  else s.(created := pid, owed := s.owed + 1, newQueue := s.newQueue + [pid])
  {
  }

  // A process whose quantum is over goes to the end of READY 2 under FEEDBACK, of READY 1 else.
  lemma Preempted(s: Sched, pid: nat)
    requires s.main == Running(pid)
    ensures var s' := Do(s, Return(Quantum));
            s' == if s.policy == FEEDBACK then s.(main := Posting(None), ready2 := s.ready2 + [pid])
                  else s.(main := Posting(None), ready1 := s.ready1 + [pid])
  {
  }

  // After its page or its I/O a process goes to the end of READY 1 under every policy.
  lemma Unblocked(s: Sched, pid: nat, d: nat)
    ensures pid in s.console ==>
              Do(s, ConsoleDone(pid))
              == s.(console := s.console - {pid}, ready1 := s.ready1 + [pid], owed := s.owed + 1)
    ensures pid in s.faulted ==>
              Do(s, FaultResolved(pid))
              == s.(faulted := s.faulted - {pid}, ready1 := s.ready1 + [pid], owed := s.owed + 1)
    ensures d < |s.devices| && s.devices[d].server == Serving(pid) ==>
              Do(s, DeviceDone(d))
              == s.(devices := s.devices[d := s.devices[d].(server := Idle)], ready1 := s.ready1 + [pid],
                    owed := s.owed + 1)
  {
  }

  // A process that asks for TECLADO or PANTALLA waits for its console; one that asks for another device goes to
  // the end of the queue of the device of that name, which is then posted.
  lemma Blocked(s: Sched, pid: nat, name: string)
    requires s.main == Running(pid) && Enabled(s, Return(Io(name)))
    ensures name == "TECLADO" || name == "PANTALLA" ==>
              Do(s, Return(Io(name))) == s.(main := Waiting, console := s.console + {pid})
    ensures name != "TECLADO" && name != "PANTALLA" ==>
              exists d :: && 0 <= d < |s.devices| && s.devices[d].name == name
                          && Do(s, Return(Io(name)))
                             == s.(main := Posting(Some(d)),
                                   devices := s.devices[d := s.devices[d].(queue := s.devices[d].queue + [pid])])
  {
    if !Console(name) {
      var d := DeviceIndex(s.devices, name).value;
      assert s.devices[d].name == name;
    }
  }

  // The other reasons touch no queue.
  lemma Left(s: Sched, pid: nat)
    requires s.main == Running(pid)
    ensures Do(s, Return(Finished)) == s.(main := Waiting, ended := s.ended + {pid})
    ensures Do(s, Return(SegmentationFault)) == s.(main := Waiting, ended := s.ended + {pid})
    ensures Do(s, Return(PageFault)) == s.(main := Waiting, faulted := s.faulted + {pid})
  {
  }

  // A device serves the process that has waited longest.
  lemma Served(s: Sched, d: nat)
    requires Enabled(s, DevicePop(d))
    ensures var device := s.devices[d];
            var device' := Device(device.name, device.queue[1..], device.sem, Serving(device.queue[0]));
            Do(s, DevicePop(d)) == s.(devices := s.devices[d := device'])
  {
  }

  // ---------- First in, first out ----------

  // Nothing, or its head was taken, or one process joined the end.
  predicate Fifo(q: seq<nat>, q': seq<nat>) {
    q' == q || (q != [] && q' == q[1..]) || (|q'| == |q| + 1 && q'[..|q|] == q)
  }

  // No step overtakes in any queue.
  lemma AllFifo(s: Sched, step: Step)
    requires Enabled(s, step)
    ensures var s' := Do(s, step);
            && Fifo(s.newQueue, s'.newQueue) && Fifo(s.ready1, s'.ready1) && Fifo(s.ready2, s'.ready2)
            && |s'.devices| == |s.devices|
            && forall d :: 0 <= d < |s.devices| ==> Fifo(s.devices[d].queue, s'.devices[d].queue)
  {
  }

  // Whom READY 2 keeps waiting: the process at index k of it moves up at each dispatch from READY 2, and
  // READY 2 is dispatched from only when READY 1 is empty.
  lemma Ready2Waits(s: Sched, step: Step, k: nat)
    requires Enabled(s, step) && k < |s.ready2|
    ensures var s' := Do(s, step);
            var moves := step == Dispatch && s.ready1 == [] && s.policy == FEEDBACK;
            && (!moves ==> k < |s'.ready2| && s'.ready2[k] == s.ready2[k])
            && (moves && k > 0 ==> k - 1 < |s'.ready2| && s'.ready2[k - 1] == s.ready2[k])
            && (moves && k == 0 ==> s'.main == Running(s.ready2[0]))
  {
  }
}
