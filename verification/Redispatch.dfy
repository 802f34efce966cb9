// What a resolved page fault buys the process: when its MOV, run again, finds the page there.
module Redispatch {
  import opened Words
  import opened Paging
  import opened PagingRuns
  import opened Mmu
  import opened Programs
  import opened Alone
  import opened Machine
  import opened Transparency

  // The next instruction of the process is a MOV on this page of its own.
  ghost predicate NextOn(s: State, pid: nat, segment: nat, page: nat)
    requires MachineInv(s)
  {
    && pid < |s.processes|
    && var next := Alone.Next(s.processes[pid].program, s.processes[pid].core);
       && next.Some? && (next.value.MovIn? || next.value.MovOut?) && Addressable(s, pid, next.value.dl)
       && InSegment(s, pid, At(s, next.value.dl))
       && At(s, next.value.dl).segment == segment && At(s, next.value.dl).page == page
  }

  // ---------- What a step leaves to a process that does not run ----------

  lemma LayoutKept(s: State, step: Machine.Step)
    requires MachineInv(s) && Enabled(s, step)
    ensures var s' := Do(s, step);
            && s'.entries == s.entries && s'.mem.pageSize == s.mem.pageSize && s.mem.sizes <= s'.mem.sizes
            && |s.processes| <= |s'.processes|
  {
    match step
    case Spawn(program, sizes) => StartProcessSound(s.mem, s.latest, sizes);
    case Exec(pid) =>
      var action := NextOf(s, pid).value;
      if (action.MovIn? || action.MovOut?) && InSegment(s, pid, At(s, action.dl)) {
        PageThere(s, pid, action.dl);
        TranslateRight(s, pid, action.dl);
        if Reachable(s, pid, action) { var frame, offset := MoveIsAccess(s, pid, action); }
      }
    case Resolve(pid) => FreeFrameShape(s.mem);
    case IoDone(pid, value) =>
    case Release(pid) => FinishProcessSound(s.mem, s.latest, s.processes[pid].segments);
  }

  // Only the end of its fault is news to it.
  lemma ProcessKept(s: State, step: Machine.Step, pid: nat)
    requires MachineInv(s) && Enabled(s, step) && step != Exec(pid)
    requires pid < |s.processes| && s.processes[pid].core.status.Running?
    ensures var s' := Do(s, step);
            && pid < |s'.processes|
            && s'.processes[pid] == if step == Resolve(pid) then s.processes[pid].(fault := None) else s.processes[pid]
  {
    if step.Exec? {
      var q, action := step.pid, NextOf(s, step.pid).value;
      if (action.MovIn? || action.MovOut?) && InSegment(s, q, At(s, action.dl)) {
        PageThere(s, q, action.dl);
        TranslateRight(s, q, action.dl);
        if Reachable(s, q, action) { var frame, offset := MoveIsAccess(s, q, action); }
      }
    }
  }

  lemma NextOnKept(s: State, step: Machine.Step, pid: nat, segment: nat, page: nat)
    requires MachineInv(s) && Enabled(s, step) && step != Exec(pid) && MachineInv(Do(s, step))
    requires NextOn(s, pid, segment, page)
    ensures NextOn(Do(s, step), pid, segment, page)
  {
    LayoutKept(s, step);
    ProcessKept(s, step, pid);
  }

  // A MOV that faults will run again.
  lemma FaultIsNext(s: State, pid: nat)
    requires MachineInv(s) && Enabled(s, Exec(pid)) && MachineInv(Do(s, Exec(pid)))
    ensures var p' := Do(s, Exec(pid)).processes[pid];
            p'.fault.Some? ==> NextOn(Do(s, Exec(pid)), pid, p'.fault.value.0, p'.fault.value.1)
  {
    LayoutKept(s, Exec(pid));
    var action := NextOf(s, pid).value;
    if (action.MovIn? || action.MovOut?) && InSegment(s, pid, At(s, action.dl)) {
      PageThere(s, pid, action.dl);
      TranslateRight(s, pid, action.dl);
      if Reachable(s, pid, action) { var frame, offset := MoveIsAccess(s, pid, action); }
    }
  }

  // ---------- What a step does to one of its pages ----------

  // memoria gives this frame to the page of some fault.
  ghost predicate HandsOut(s: State, step: Machine.Step, frame: int) {
    MachineInv(s) && Enabled(s, step) && step.Resolve? && ResolveFault(s.mem, FaultEntry(s, step.pid)).1 == frame
  }

  // A page of another process is not the one a fault is about.
  lemma NotItsPage(s: State, pid: nat, q: nat, segment: nat, page: nat)
    requires MachineInv(s) && pid < |s.processes| && q < |s.processes| && q != pid && s.processes[q].fault.Some?
    requires PageExists(s.mem, s.processes[pid].segments, segment, page)
    ensures FaultEntry(s, q) != PageIndex(s.mem, s.processes[pid].segments, segment, page)
  {
    var a, b := s.processes[pid].segments, s.processes[q].segments;
    assert FaultRight(s.mem, s.processes[q]);
    assert ApartTables(s.processes[if pid < q then pid else q].segments,
                       s.processes[if pid < q then q else pid].segments);
    PageIndexInjective(s.mem, a, segment, page, b, s.processes[q].fault.value.0, s.processes[q].fault.value.1);
  }

  // While the process neither runs nor waits, its page leaves its frame in one way: memoria hands the
  // frame out.
  lemma PageStays(s: State, step: Machine.Step, pid: nat, segment: nat, page: nat)
    requires MachineInv(s) && Enabled(s, step) && step != Exec(pid)
    requires pid < |s.processes| && s.processes[pid].core.status.Running? && s.processes[pid].fault.None?
    requires PageExists(s.mem, s.processes[pid].segments, segment, page)
    ensures var k, m, m' := PageIndex(s.mem, s.processes[pid].segments, segment, page), s.mem, Do(s, step).mem;
            && k < |m'.pages|
            && (m'.pages[k].P <==> m.pages[k].P && !HandsOut(s, step, m.pages[k].frame))
            && m'.pages[k].frame == m.pages[k].frame
  {
    var k := PageIndex(s.mem, s.processes[pid].segments, segment, page);
    match step
    case Spawn(program, sizes) => StartProcessSound(s.mem, s.latest, sizes);
    case Exec(q) => ExecKeepsPlaces(s, q);
    case Resolve(q) =>
      NotItsPage(s, pid, q, segment, page);
      ResolveFaultEffect(s.mem, FaultEntry(s, q), k);
    case IoDone(q, value) =>
    case Release(q) =>
      NotWithin(s, q, pid, segment, page);
      FinishProcessAt(s.mem, s.latest, s.processes[q].segments, k);
  }

  lemma ExecKeepsPlaces(s: State, q: nat)
    requires MachineInv(s) && Enabled(s, Exec(q))
    ensures SamePlaces(s.mem, Do(s, Exec(q)).mem)
  {
    var action := NextOf(s, q).value;
    if (action.MovIn? || action.MovOut?) && InSegment(s, q, At(s, action.dl)) {
      PageThere(s, q, action.dl);
      TranslateRight(s, q, action.dl);
      if Reachable(s, q, action) {
        var frame, offset := MoveIsAccess(s, q, action);
        AccessSound(s, q, frame, offset, action);
      }
    }
  }

  // ---------- From the resolution to the next dispatch ----------

  // Step n resolves the fault of process pid, and up to state j the process does not run.
  ghost predicate Between(states: seq<State>, steps: seq<Machine.Step>, n: nat, j: nat, pid: nat) {
    && IsRun(states, steps) && n < j < |states| && steps[n] == Resolve(pid)
    && forall i :: n < i < j ==> steps[i] != Exec(pid)
  }

  // Step i hands this frame out.
  ghost predicate HandsOutAt(states: seq<State>, steps: seq<Machine.Step>, i: nat, frame: int)
    requires |states| == |steps| + 1 && i < |steps|
  {
    HandsOut(states[i], steps[i], frame)
  }

  ghost predicate HandedOut(states: seq<State>, steps: seq<Machine.Step>, n: nat, j: nat, frame: int)
    requires |states| == |steps| + 1 && j <= |steps|
  {
    exists i: nat :: n < i < j && HandsOutAt(states, steps, i, frame)
  }

  // The MOV a process waits for a page with is its next instruction.
  lemma {:induction false} WaitsForNext(states: seq<State>, steps: seq<Machine.Step>, n: nat, pid: nat)
    requires IsRun(states, steps) && n < |states|
    ensures MachineInv(states[n])
    ensures pid < |states[n].processes| && states[n].processes[pid].fault.Some? ==>
              var fault := states[n].processes[pid].fault.value; NextOn(states[n], pid, fault.0, fault.1)
    decreases n
  {
    RunKeepsInv(states, steps, n);
    if n > 0 {
      WaitsForNext(states, steps, n - 1, pid);
      assert Taken(states, steps, n - 1);
      var s, step := states[n - 1], steps[n - 1];
      if pid >= |s.processes| {
      } else if step == Exec(pid) {
        FaultIsNext(s, pid);
      } else if s.processes[pid].fault.Some? {
        var fault := s.processes[pid].fault.value;
        ProcessKept(s, step, pid);
        NextOnKept(s, step, pid, fault.0, fault.1);
      } else {
        FaultNeedsExec(s, step, pid);
      }
    }
  }

  lemma FaultNeedsExec(s: State, step: Machine.Step, pid: nat)
    requires MachineInv(s) && Enabled(s, step) && step != Exec(pid)
    requires pid < |s.processes| && s.processes[pid].fault.None?
    ensures pid < |Do(s, step).processes| && Do(s, step).processes[pid].fault.None?
  {
    if s.processes[pid].core.status.Running? {
      ProcessKept(s, step, pid);
    } else if step.Exec? {
      ExecKeepsPlaces(s, step.pid);
    }
  }

  // The process is about to run a MOV on this page, which is entry k; it was loaded into this frame.
  ghost predicate Poised(s: State, pid: nat, core: Core, segment: nat, page: nat, k: nat, frame: int) {
    && MachineInv(s) && NextOn(s, pid, segment, page)
    && s.processes[pid].fault.None? && s.processes[pid].core == core
    && PageExists(s.mem, s.processes[pid].segments, segment, page)
    && PageIndex(s.mem, s.processes[pid].segments, segment, page) == k
    && s.mem.pages[k].frame == frame
  }

  ghost predicate There(s: State, k: nat) {
    k < |s.mem.pages| && s.mem.pages[k].P
  }

  lemma ResolvedPoised(s: State, pid: nat)
    requires MachineInv(s) && Enabled(s, Resolve(pid))
    requires NextOn(s, pid, s.processes[pid].fault.value.0, s.processes[pid].fault.value.1)
    ensures var fault, k, s' := s.processes[pid].fault.value, FaultEntry(s, pid), Do(s, Resolve(pid));
            Poised(s', pid, s.processes[pid].core, fault.0, fault.1, k, ResolveFault(s.mem, k).1) && There(s', k)
  {
    var s', fault := Do(s, Resolve(pid)), s.processes[pid].fault.value;
    StepKeepsInv(s, Resolve(pid));
    LayoutKept(s, Resolve(pid));
    NextOnKept(s, Resolve(pid), pid, fault.0, fault.1);
    assert FaultRight(s.mem, s.processes[pid]);
    IndexKept(s.mem, s'.mem, s.processes[pid].segments, fault.0, fault.1);
    ResolveFaultSound(s.mem, s.latest, FaultEntry(s, pid));
  }

  lemma PoisedStays(s: State, step: Machine.Step, s': State, pid: nat, core: Core, segment: nat, page: nat, k: nat,
                    frame: int)
    requires MachineInv(s) && Enabled(s, step) && step != Exec(pid) && s' == Do(s, step)
    requires Poised(s, pid, core, segment, page, k, frame)
    ensures Poised(s', pid, core, segment, page, k, frame)
    ensures There(s', k) <==> There(s, k) && !HandsOut(s, step, frame)
  {
    StepKeepsInv(s, step);
    LayoutKept(s, step);
    ProcessKept(s, step, pid);
    NextOnKept(s, step, pid, segment, page);
    IndexKept(s.mem, Do(s, step).mem, s.processes[pid].segments, segment, page);
    PageStays(s, step, pid, segment, page);
  }

  lemma HandedOutMore(states: seq<State>, steps: seq<Machine.Step>, n: nat, i: nat, j: nat, frame: int)
    requires |states| == |steps| + 1 && n < i < |steps| && j == i + 1
    ensures HandedOut(states, steps, n, j, frame) <==>
            HandedOut(states, steps, n, i, frame) || HandsOut(states[i], steps[i], frame)
  {
    if HandedOut(states, steps, n, i, frame) {
      var l: nat :| n < l < i && HandsOutAt(states, steps, l, frame);
      assert l < j;
    }
    if HandsOut(states[i], steps[i], frame) { assert HandsOutAt(states, steps, i, frame); }
  }

  // The page is there until its frame is handed out, and comes back only after the process has run.
  lemma {:induction false} PoisedUntil(states: seq<State>, steps: seq<Machine.Step>, n: nat, from: nat, j: nat,
                                       pid: nat, core: Core, segment: nat, page: nat, k: nat, frame: int)
    requires Between(states, steps, n, j, pid) && from == n + 1
    requires Poised(states[from], pid, core, segment, page, k, frame) && There(states[from], k)
    ensures Poised(states[j], pid, core, segment, page, k, frame)
    ensures There(states[j], k) <==> !HandedOut(states, steps, n, j, frame)
    decreases j
  {
    if j != from {
      var i := j - 1;
      PoisedUntil(states, steps, n, from, i, pid, core, segment, page, k, frame);
      assert Taken(states, steps, i);
      PoisedStays(states[i], steps[i], states[j], pid, core, segment, page, k, frame);
      HandedOutMore(states, steps, n, i, j, frame);
    }
  }

  lemma LoadedPage(states: seq<State>, steps: seq<Machine.Step>, n: nat, j: nat, pid: nat)
    requires Between(states, steps, n, j, pid)
    ensures MachineInv(states[n]) && Enabled(states[n], Resolve(pid))
    ensures var fault, k := states[n].processes[pid].fault.value, FaultEntry(states[n], pid);
            var frame := ResolveFault(states[n].mem, k).1;
            && Poised(states[j], pid, states[n].processes[pid].core, fault.0, fault.1, k, frame)
            && (There(states[j], k) <==> !HandedOut(states, steps, n, j, frame))
  {
    WaitsForNext(states, steps, n, pid);
    assert Taken(states, steps, n);
    ResolvedPoised(states[n], pid);
    var fault, k := states[n].processes[pid].fault.value, FaultEntry(states[n], pid);
    PoisedUntil(states, steps, n, n + 1, j, pid, states[n].processes[pid].core, fault.0, fault.1, k,
                ResolveFault(states[n].mem, k).1);
  }

  lemma PoisedRuns(s: State, pid: nat, core: Core, segment: nat, page: nat, k: nat, frame: int)
    requires Poised(s, pid, core, segment, page, k, frame)
    ensures Enabled(s, Exec(pid))
    ensures Do(s, Exec(pid)).processes[pid].core.pc == s.processes[pid].core.pc + (if There(s, k) then 1 else 0)
    ensures Do(s, Exec(pid)).processes[pid].fault == if There(s, k) then None else Some((segment, page))
  {
    var action := NextOf(s, pid).value;
    PageThere(s, pid, action.dl);
    TranslateRight(s, pid, action.dl);
    if There(s, k) { var f, offset := MoveIsAccess(s, pid, action); }
  }

  // A fault of the process was resolved at step n, and the next time it runs is at state j. Its MOV
  // faults on the same page again exactly when in between memoria handed the frame of that page out;
  // else it is done.
  lemma FaultsAgainIff(states: seq<State>, steps: seq<Machine.Step>, n: nat, j: nat, pid: nat)
    requires Between(states, steps, n, j, pid)
    ensures MachineInv(states[n]) && Enabled(states[n], Resolve(pid))
    ensures MachineInv(states[j]) && Enabled(states[j], Exec(pid)) && pid < |states[j].processes|
    ensures var p, p' := states[j].processes[pid], Do(states[j], Exec(pid)).processes[pid];
            var again := HandedOut(states, steps, n, j, ResolveFault(states[n].mem, FaultEntry(states[n], pid)).1);
            && p.core == states[n].processes[pid].core
            && p'.fault == (if again then states[n].processes[pid].fault else None)
            && p'.core.pc == p.core.pc + (if again then 0 else 1)
  {
    LoadedPage(states, steps, n, j, pid);
    var fault, k := states[n].processes[pid].fault.value, FaultEntry(states[n], pid);
    PoisedRuns(states[j], pid, states[n].processes[pid].core, fault.0, fault.1, k,
               ResolveFault(states[n].mem, k).1);
  }
}
