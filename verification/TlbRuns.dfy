// The lookups and removals a run of the machine makes of a TLB, and LRU inclusion for every run.
module TlbRuns {
  import opened Words
  import opened Paging
  import opened Mmu
  import opened TlbQueue
  import opened Programs
  import opened Alone
  import opened Machine
  import opened Transparency

  // What one step is to a TLB: a MOV that reaches its page uses the translation the page tables have,
  // an exit and a fault resolution take entries out. A MOV that faults finds nothing and leaves nothing.
  ghost function EventOf(s: State, step: Machine.Step): seq<TlbQueue.Event>
    requires MachineInv(s) && Enabled(s, step)
  {
    match step
    case Exec(pid) =>
      var action := NextOf(s, pid).value;
      if action.Exit? then [Remove(OfPid(pid))]
      else if !(action.MovIn? || action.MovOut?) || !InSegment(s, pid, At(s, action.dl)) then []
      else
        var page := s.mem.pages[Entry(s, pid, action.dl)];
        if !page.P || page.frame < 0 then []
        else [Use(Cached(Key(pid, At(s, action.dl).segment, At(s, action.dl).page), page.frame))]
    case Resolve(pid) => [Remove(OfFrame(ResolveFault(s.mem, FaultEntry(s, pid)).1))]
    case _ => []
  }

  // The same machine with another TLB in it: an LRU one of this capacity, holding q.
  ghost function WithTlb(s: State, q: seq<Cached>, capacity: nat): State {
    s.(tlb := q, lru := true, capacity := capacity)
  }

  // A translation that succeeds leaves the TLB as after that event.
  lemma TranslateIsUse(s: State, q: seq<Cached>, capacity: nat, pid: nat, action: Action)
    requires MachineInv(s) && MachineInv(WithTlb(s, q, capacity)) && Reachable(s, pid, action)
    requires NextOf(s, pid) == Some(action) && Enabled(s, Exec(pid))
    ensures Reachable(WithTlb(s, q, capacity), pid, action)
    ensures Translate(WithTlb(s, q, capacity), pid, action.dl).0 == PlayAll(q, capacity, EventOf(s, Exec(pid)))
  {
    var s1 := WithTlb(s, q, capacity);
    assert Reachable(s1, pid, action);
    TranslateRight(s1, pid, action.dl);
    EntryFound(s, pid, action.dl);
  }

  lemma RamAccessWithTlb(s: State, q: seq<Cached>, q': seq<Cached>, capacity: nat, pid: nat, frame: nat, offset: nat,
                         action: Action, tlb: seq<Cached>)
    requires Shape(s.mem) && |s.latest| == |s.mem.pages| && pid < |s.processes| && (action.MovIn? || action.MovOut?)
    requires TablesExist(s.mem, s.processes[pid].segments)
    requires GetPageReverse(s.mem, s.processes[pid].segments, frame).Some?
    requires frame < |s.mem.used| && offset + 4 <= s.mem.pageSize
    ensures RamAccess(WithTlb(s, q, capacity), pid, frame, offset, action).(tlb := q')
         == WithTlb(RamAccess(s, pid, frame, offset, action).(tlb := tlb), q', capacity)
  {
  }

  lemma AccessWithTlb(s: State, q: seq<Cached>, capacity: nat, pid: nat, action: Action)
    requires MachineInv(s) && MachineInv(WithTlb(s, q, capacity)) && Reachable(s, pid, action)
    requires NextOf(s, pid) == Some(action) && Enabled(s, Exec(pid))
    ensures Reachable(WithTlb(s, q, capacity), pid, action)
    ensures Move(WithTlb(s, q, capacity), pid, action)
         == WithTlb(Move(s, pid, action), PlayAll(q, capacity, EventOf(s, Exec(pid))), capacity)
  {
    var frame, offset := MoveIsAccess(s, pid, action);
    TranslateIsUse(s, q, capacity, pid, action);
    var frame1, offset1 := MoveIsAccess(WithTlb(s, q, capacity), pid, action);
    RamAccessWithTlb(s, q, PlayAll(q, capacity, EventOf(s, Exec(pid))), capacity, pid, frame, offset, action,
                     Translate(s, pid, action.dl).0);
  }

  lemma MoveWithTlb(s: State, q: seq<Cached>, capacity: nat, pid: nat, action: Action)
    requires MachineInv(s) && Enabled(s, Exec(pid)) && MachineInv(WithTlb(s, q, capacity))
    requires NextOf(s, pid) == Some(action) && (action.MovIn? || action.MovOut?)
    ensures Enabled(WithTlb(s, q, capacity), Exec(pid))
    ensures Move(WithTlb(s, q, capacity), pid, action)
         == WithTlb(Move(s, pid, action), PlayAll(q, capacity, EventOf(s, Exec(pid))), capacity)
  {
    if InSegment(s, pid, At(s, action.dl)) {
      if s.mem.pages[Entry(s, pid, action.dl)].P {
        AccessWithTlb(s, q, capacity, pid, action);
      } else {
        TranslateRight(s, pid, action.dl);
        TranslateRight(WithTlb(s, q, capacity), pid, action.dl);
      }
    }
  }

  // The rest of the machine does not depend on its TLB, and the TLB sees nothing but the events.
  lemma StepWithTlb(s: State, q: seq<Cached>, capacity: nat, step: Machine.Step)
    requires MachineInv(s) && Enabled(s, step) && MachineInv(WithTlb(s, q, capacity))
    ensures Enabled(WithTlb(s, q, capacity), step)
    ensures Do(WithTlb(s, q, capacity), step)
         == WithTlb(Do(s, step), PlayAll(q, capacity, EventOf(s, step)), capacity)
  {
    match step
    case Exec(pid) =>
      var action := NextOf(s, pid).value;
      assert NextOf(WithTlb(s, q, capacity), pid) == Some(action);
      if action.MovIn? || action.MovOut? { MoveWithTlb(s, q, capacity, pid, action); }
    case _ =>
  }

  // All that a step does to the machine's own TLB, FIFO or LRU.
  lemma TlbAfter(s: State, step: Machine.Step)
    requires MachineInv(s) && Enabled(s, step)
    ensures var tlb, events := Do(s, step).tlb, EventOf(s, step);
            && |events| <= 1
            && (events == [] ==> tlb == s.tlb)
            && forall e :: e in events ==>
                 tlb == if e.Use? then Access(s.tlb, s.lru, s.capacity, e.c) else Purge(s.tlb, e.r)
  {
    if step.Exec? {
      var action := NextOf(s, step.pid).value;
      if action.MovIn? || action.MovOut? { MoveUses(s, step.pid, action); }
    }
  }

  lemma MoveUses(s: State, pid: nat, action: Action)
    requires MachineInv(s) && Enabled(s, Exec(pid)) && NextOf(s, pid) == Some(action)
    requires action.MovIn? || action.MovOut?
    ensures var tlb, events := Move(s, pid, action).tlb, EventOf(s, Exec(pid));
            && (events == [] ==> tlb == s.tlb)
            && (events != [] ==> events[0].Use? && tlb == Access(s.tlb, s.lru, s.capacity, events[0].c))
  {
    if InSegment(s, pid, At(s, action.dl)) {
      TranslateRight(s, pid, action.dl);
      if Reachable(s, pid, action) { var frame, offset := MoveIsAccess(s, pid, action); }
    }
  }

  // What such a TLB holds of the page used is what the page tables have.
  lemma UsedIsRight(s: State, q: seq<Cached>, capacity: nat, step: Machine.Step)
    requires MachineInv(s) && Enabled(s, step) && MachineInv(WithTlb(s, q, capacity))
    ensures Coherent(q, capacity, EventOf(s, step))
  {
    if step.Exec? {
      var action := NextOf(s, step.pid).value;
      if (action.MovIn? || action.MovOut?) && InSegment(s, step.pid, At(s, action.dl)) {
        var page := s.mem.pages[Entry(s, step.pid, action.dl)];
        forall c | c in q && c.key == Key(step.pid, At(s, action.dl).segment, At(s, action.dl).page)
          ensures c.frame == page.frame
        {
          assert Translates(s.mem, s.processes, c);
        }
      }
    }
  }

  // ---------- Whole runs ----------

  // The events of a run from its n-th step on.
  ghost function Trace(states: seq<State>, steps: seq<Machine.Step>, n: nat): seq<TlbQueue.Event>
    requires IsRun(states, steps) && n <= |steps|
    decreases |steps| - n
  {
    if n == |steps| then []
    else
      RunKeepsInv(states, steps, n);
      assert Taken(states, steps, n);
      EventOf(states[n], steps[n]) + Trace(states, steps, n + 1)
  }

  lemma PlayConcat(q: seq<Cached>, capacity: nat, a: seq<TlbQueue.Event>, b: seq<TlbQueue.Event>)
    requires |a| <= 1
    ensures PlayAll(q, capacity, a + b) == PlayAll(PlayAll(q, capacity, a), capacity, b)
    ensures Coherent(q, capacity, a) && Coherent(PlayAll(q, capacity, a), capacity, b) ==> Coherent(q, capacity, a + b)
  {
    if a == [] {
      assert a + b == b;
    } else {
      assert (a + b)[1..] == b && a[1..] == [];
    }
  }

  // An LRU TLB of any capacity beside any run of the machine stays right, and the run's own TLB, when
  // it is LRU, is the one of its capacity.
  lemma {:induction false} TraceFrom(states: seq<State>, steps: seq<Machine.Step>, n: nat, q: seq<Cached>,
                                     capacity: nat)
    requires IsRun(states, steps) && n <= |steps|
    requires MachineInv(states[n]) && MachineInv(WithTlb(states[n], q, capacity))
    ensures Coherent(q, capacity, Trace(states, steps, n))
    ensures states[n] == WithTlb(states[n], q, capacity) ==>
              states[|steps|].tlb == PlayAll(q, capacity, Trace(states, steps, n))
    decreases |steps| - n
  {
    if n < |steps| {
      assert Taken(states, steps, n);
      var s, step := states[n], steps[n];
      var events := EventOf(s, step);
      StepKeepsInv(s, step);
      StepWithTlb(s, q, capacity, step);
      StepKeepsInv(WithTlb(s, q, capacity), step);
      UsedIsRight(s, q, capacity, step);
      TraceFrom(states, steps, n + 1, PlayAll(q, capacity, events), capacity);
      PlayConcat(q, capacity, events, Trace(states, steps, n + 1));
    }
  }

  // In every run of the machine, whatever TLB it has: of two LRU TLBs fed its lookups and removals the
  // smaller holds a part of what the larger holds and misses no less. The machine's own TLB, when it is
  // LRU, is the one of its capacity.
  lemma LruInclusionInRuns(states: seq<State>, steps: seq<Machine.Step>, k: nat, k': nat)
    requires IsRun(states, steps) && k <= k'
    ensures var events := Trace(states, steps, 0);
            && (forall c :: c in PlayAll([], k, events) ==> c in PlayAll([], k', events))
            && Misses([], k', events) <= Misses([], k, events)
            && (states[0].lru ==> states[|steps|].tlb == PlayAll([], states[0].capacity, events))
  {
    var s := states[0];
    RunKeepsInv(states, steps, 0);
    assert MachineInv(WithTlb(s, [], k')) && MachineInv(WithTlb(s, [], s.capacity));
    TraceFrom(states, steps, 0, [], k');
    TraceFrom(states, steps, 0, [], s.capacity);
    LruNeverWorseWhenLarger(k, k', Trace(states, steps, 0));
  }
}
