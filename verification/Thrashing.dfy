// A run in which two processes keep taking each other's page: each page goes before its process has
// used it, and neither executes a single instruction, however long the run.
module Thrashing {
  import opened Words
  import opened Clock
  import opened Paging
  import opened PagingRuns
  import opened Mmu
  import opened TlbQueue
  import opened Programs
  import opened Alone
  import opened Machine
  import opened Transparency

  // One frame of four bytes, with any algorithm and any TLB.
  datatype World = World(algorithm: Algorithm, ram: seq<Byte>, lru: bool, capacity: nat)

  // Load a word, and exit.
  const PROGRAM := [Instruction(MOV_IN, [Number(0), Number(0)]), Instruction(EXIT, [])]

  // The process that has this table, still before its first instruction; it waits for its page or not.
  function OfTable(table: nat, waits: bool): Process {
    Process(PROGRAM, [Segment(4, table)], START, if waits then Some((0, 0)) else None, false)
  }

  function Page0(there: bool): Page {
    Page(0, there, false, false, -1)
  }

  // Both processes have started and each has had its page once; `in1` tells whose page is in the frame.
  function Stage(w: World, in1: bool, waits0: bool, waits1: bool): State {
    State(Mem(w.algorithm, 4, [1, 1], [Page0(!in1), Page0(in1)], [true], w.ram, [], if in1 then 0 else 1),
          [None, None], [], w.lru, w.capacity, 1, [OfTable(0, waits0), OfTable(1, waits1)])
  }

  // ---------- One step ----------

  lemma Addresses()
    ensures Split(0, 1, 4) == Address(0, 0, 0, 0)
  {
  }

  lemma NextIsLoad(p: Process)
    requires p.program == PROGRAM && p.core == START
    ensures Alone.Next(p.program, p.core) == Some(MovIn(0, 0))
  {
  }

  lemma Layout(m: Mem, pid: nat)
    requires Shape(m) && m.sizes == [1, 1] && pid < 2
    ensures PageExists(m, [Segment(4, pid)], 0, 0) && PageIndex(m, [Segment(4, pid)], 0, 0) == pid
  {
    assert Base([1, 1], 0) == 0 && Base([1, 1], 1) == 1;
  }

  // A process that runs while the other's page is in the frame faults.
  lemma LoadFaults(w: World, in1: bool, waits0: bool, waits1: bool, pid: nat)
    requires MachineInv(Stage(w, in1, waits0, waits1)) && pid < 2
    requires if pid == 0 then in1 && !waits0 else !in1 && !waits1
    ensures var s := Stage(w, in1, waits0, waits1);
            && Enabled(s, Exec(pid))
            && Do(s, Exec(pid)) == Stage(w, in1, pid == 0 || waits0, pid == 1 || waits1)
  {
    var s := Stage(w, in1, waits0, waits1);
    Addresses();
    NextIsLoad(s.processes[pid]);
    Layout(s.mem, pid);
    assert Entry(s, pid, 0) == pid;
    assert s.processes[pid := OfTable(pid, true)] == Stage(w, in1, pid == 0 || waits0, pid == 1 || waits1).processes;
  }

  // The page in the frame is unused and clean, so it is the one to go.
  lemma OnlyVictim(algorithm: Algorithm, in1: bool)
    ensures FindVictim(algorithm, [Page0(!in1), Page0(in1)], if in1 then 0 else 1)
         == Choice(if in1 then 1 else 0, [Page0(!in1), Page0(in1)])
  {
    var pages, hand, v := [Page0(!in1), Page0(in1)], if in1 then 0 else 1, if in1 then 1 else 0;
    assert !Wants(Resident, pages[1 - v]);
    assert Wants(Unused, pages[v]) && Wants(UnusedWith(false), pages[v]) && Wants(Clean, pages[v]);
    assert !Wants(UnusedWith(true), pages[v]);
    if algorithm.Clock? {
      assert First(Unused, pages, 0) == v;
      assert First(Unused, pages, hand) == if in1 then 1 else 2;
      assert ClearRange(ClearRange(pages, hand, 2), 0, v) == pages;
    } else {
      assert First(UnusedWith(false), pages, hand) == if in1 then 1 else 2;
      assert First(UnusedWith(true), pages, 0) == 2;
      assert First(Clean, pages, 0) == v;
      assert ClearRange(pages, 0, 2) == pages;
    }
  }

  // Bringing the other page in takes this one out.
  lemma Swapped(w: World, in1: bool)
    requires Inv(Stage(w, in1, false, false).mem)
    ensures var v := if in1 then 0 else 1;
            ResolveFault(Stage(w, in1, false, false).mem, v) == (Stage(w, !in1, false, false).mem, 0)
  {
    var m, k := Stage(w, in1, false, false).mem, if in1 then 0 else 1;
    OnlyVictim(w.algorithm, in1);
    assert FirstFree(m.used, 0) == 1;
    var m1 := m.(pages := [Page0(false), Page0(false)], hand := 1 - k);
    assert m.pages[1 - k := Page0(false)] == m1.pages;
    assert FindFreeFrame(m) == (m1, 0);
    assert m1.pages[k := Page0(true)] == Stage(w, !in1, false, false).mem.pages;
  }

  lemma FaultResolved(w: World, in1: bool, waits0: bool, waits1: bool, pid: nat)
    requires MachineInv(Stage(w, in1, waits0, waits1)) && pid < 2
    requires if pid == 0 then in1 && waits0 else !in1 && waits1
    ensures var s := Stage(w, in1, waits0, waits1);
            && Enabled(s, Resolve(pid))
            && Do(s, Resolve(pid)) == Stage(w, !in1, pid != 0 && waits0, pid != 1 && waits1)
  {
    var s := Stage(w, in1, waits0, waits1);
    Layout(s.mem, pid);
    Swapped(w, in1);
    assert FaultEntry(s, pid) == pid;
    assert s.processes[pid := OfTable(pid, false)] == Stage(w, !in1, pid != 0 && waits0, pid != 1 && waits1).processes;
  }

  // ---------- The beginning ----------

  function Fresh(w: World, pages: seq<Page>, used: bool, waits: seq<bool>): State {
    State(Mem(w.algorithm, 4, seq(|pages|, i => 1), pages, [used], w.ram, [], 0), seq(|pages|, i => None), [],
          w.lru, w.capacity, 1, seq(|waits|, i requires 0 <= i < |waits| => OfTable(i, waits[i])))
  }

  // One more process and table.
  lemma Spawned(w: World, n: nat, waits: seq<bool>)
    requires n <= 1 && waits == if n == 0 then [] else [false]
    requires MachineInv(Fresh(w, FreshPages(n), false, waits))
    ensures Do(Fresh(w, FreshPages(n), false, waits), Spawn(PROGRAM, [4]))
         == Fresh(w, FreshPages(n + 1), false, waits + [false])
  {
    var s, s' := Fresh(w, FreshPages(n), false, waits), Fresh(w, FreshPages(n + 1), false, waits + [false]);
    TableAdded(s.mem, s'.mem, n);
    assert s.processes + [OfTable(n, false)] == s'.processes;
    assert Grown(s.latest, n + 1) == s'.latest;
  }

  lemma TableAdded(m: Mem, m': Mem, n: nat)
    requires m.pageSize == 4 && |m.sizes| == n && m' == m.(sizes := m'.sizes, pages := m'.pages)
    requires m.sizes == seq(n, i => 1) && m'.sizes == seq(n + 1, i => 1)
    requires m.pages == FreshPages(n) && m'.pages == FreshPages(n + 1)
    ensures StartProcess(m, [4]) == (m', [Segment(4, n)])
  {
    assert [4][..0] == [] && PagesFor(4, 4) == 1 && StartProcess(m, []) == (m, []);
    assert StartProcess(m, [4]) == (AddTable(m, 1), [] + [Segment(4, n)]);
    assert [] + [Segment(4, n)] == [Segment(4, n)];
    assert m.sizes + [1] == m'.sizes && m.pages + FreshPages(1) == m'.pages;
  }

  lemma FirstFault(w: World)
    requires MachineInv(Fresh(w, [FRESH_PAGE, FRESH_PAGE], false, [false, false]))
    ensures var s := Fresh(w, [FRESH_PAGE, FRESH_PAGE], false, [false, false]);
            && Enabled(s, Exec(0)) && Do(s, Exec(0)) == Fresh(w, [FRESH_PAGE, FRESH_PAGE], false, [true, false])
  {
    var s := Fresh(w, [FRESH_PAGE, FRESH_PAGE], false, [false, false]);
    Addresses();
    NextIsLoad(s.processes[0]);
    assert s.mem.sizes == [1, 1];
    Layout(s.mem, 0);
    assert Entry(s, 0, 0) == 0;
    assert s.processes[0 := OfTable(0, true)] == Fresh(w, [FRESH_PAGE, FRESH_PAGE], false, [true, false]).processes;
  }

  lemma FirstResolved(w: World)
    requires MachineInv(Fresh(w, [FRESH_PAGE, FRESH_PAGE], false, [true, false]))
    ensures var s := Fresh(w, [FRESH_PAGE, FRESH_PAGE], false, [true, false]);
            && Enabled(s, Resolve(0)) && Do(s, Resolve(0)) == Fresh(w, [Page0(true), FRESH_PAGE], true, [false, false])
  {
    var s := Fresh(w, [FRESH_PAGE, FRESH_PAGE], false, [true, false]);
    assert s.mem.sizes == [1, 1];
    Layout(s.mem, 0);
    assert FaultEntry(s, 0) == 0;
    assert FirstFree([false], 0) == 0 && [false][0 := true] == [true];
    assert FindFreeFrame(s.mem) == (s.mem.(used := [true]), 0);
    assert s.mem.pages[0 := Page0(true)] == [Page0(true), FRESH_PAGE];
    assert s.processes[0 := OfTable(0, false)] == Fresh(w, s.mem.pages, false, [false, false]).processes;
  }

  lemma SecondFault(w: World)
    requires MachineInv(Fresh(w, [Page0(true), FRESH_PAGE], true, [false, false]))
    ensures var s := Fresh(w, [Page0(true), FRESH_PAGE], true, [false, false]);
            && Enabled(s, Exec(1)) && Do(s, Exec(1)) == Fresh(w, [Page0(true), FRESH_PAGE], true, [false, true])
  {
    var s := Fresh(w, [Page0(true), FRESH_PAGE], true, [false, false]);
    Addresses();
    NextIsLoad(s.processes[1]);
    assert s.mem.sizes == [1, 1];
    Layout(s.mem, 1);
    assert Entry(s, 1, 0) == 1;
    assert s.processes[1 := OfTable(1, true)] == Fresh(w, [Page0(true), FRESH_PAGE], true, [false, true]).processes;
  }

  lemma SecondResolved(w: World)
    requires MachineInv(Fresh(w, [Page0(true), FRESH_PAGE], true, [false, true]))
    ensures var s := Fresh(w, [Page0(true), FRESH_PAGE], true, [false, true]);
            && Enabled(s, Resolve(1)) && Do(s, Resolve(1)) == Stage(w, true, false, false)
  {
    var s := Fresh(w, [Page0(true), FRESH_PAGE], true, [false, true]);
    assert s.mem.sizes == [1, 1];
    Layout(s.mem, 1);
    assert FaultEntry(s, 1) == 1;
    FirstVictim(w.algorithm);
    assert FirstFree([true], 0) == 1;
    var m1 := s.mem.(pages := [Page0(false), FRESH_PAGE], hand := 0);
    assert s.mem.pages[0 := Page0(false)] == m1.pages && FindFreeFrame(s.mem) == (m1, 0);
    assert m1.pages[1 := Page0(true)] == Stage(w, true, false, false).mem.pages;
    assert s.processes[1 := OfTable(1, false)] == Stage(w, true, false, false).processes;
    assert s.latest == [None, None];
  }

  lemma FirstVictim(algorithm: Algorithm)
    ensures FindVictim(algorithm, [Page0(true), FRESH_PAGE], 0) == Choice(0, [Page0(true), FRESH_PAGE])
  {
    var pages := [Page0(true), FRESH_PAGE];
    assert First(Unused, pages, 0) == 0 && First(UnusedWith(false), pages, 0) == 0;
    assert ClearRange(pages, 0, 0) == pages;
  }

  // ---------- The run ----------

  // A run of these steps that ends in s and in which no process has executed an instruction.
  ghost predicate Stuck(states: seq<State>, steps: seq<Machine.Step>, s: State) {
    && IsRun(states, steps) && states[|steps|] == s && MachineInv(s)
    && forall i :: 0 <= i < |states| ==> AtStart(states[i])
  }

  ghost predicate AtStart(s: State) {
    forall p :: 0 <= p < |s.processes| ==> s.processes[p].core == START
  }

  lemma Then(states: seq<State>, steps: seq<Machine.Step>, s: State, step: Machine.Step, s': State)
    returns (states': seq<State>, steps': seq<Machine.Step>)
    requires Stuck(states, steps, s) && Enabled(s, step) && Do(s, step) == s' && AtStart(s')
    ensures Stuck(states', steps', s') && steps' == steps + [step]
  {
    states', steps' := states + [s'], steps + [step];
    StepKeepsInv(s, step);
    forall i: nat | i < |steps'| ensures Taken(states', steps', i) {
      if i < |steps| { assert Taken(states, steps, i); }
    }
  }

  const PREFIX := [Spawn(PROGRAM, [4]), Spawn(PROGRAM, [4]), Exec(0), Resolve(0), Exec(1), Resolve(1)]

  const ROUND := [Exec(0), Resolve(0), Exec(1), Resolve(1)]

  function Rounds(n: nat): seq<Machine.Step> {
    if n == 0 then PREFIX else Rounds(n - 1) + ROUND
  }

  lemma Begun(w: World) returns (states: seq<State>, steps: seq<Machine.Step>)
    requires |w.ram| == 4
    ensures Stuck(states, steps, Fresh(w, FreshPages(0), false, [])) && steps == []
  {
    var s := State(PagingRuns.Initial(w.algorithm, 4, 1, w.ram), [], [], w.lru, w.capacity, 1, []);
    InitialSound(w.algorithm, 4, 1, w.ram);
    assert s == Fresh(w, FreshPages(0), false, []);
    states, steps := [s], [];
  }

  lemma OneStarted(w: World) returns (states: seq<State>, steps: seq<Machine.Step>)
    requires |w.ram| == 4
    ensures Stuck(states, steps, Fresh(w, FreshPages(1), false, [false])) && steps == PREFIX[..1]
  {
    states, steps := Begun(w);
    Spawned(w, 0, []);
    assert [] + [false] == [false];
    states, steps := Then(states, steps, Fresh(w, FreshPages(0), false, []), PREFIX[0],
                          Fresh(w, FreshPages(1), false, [false]));
  }

  lemma BothStarted(w: World) returns (states: seq<State>, steps: seq<Machine.Step>)
    requires |w.ram| == 4
    ensures Stuck(states, steps, Fresh(w, [FRESH_PAGE, FRESH_PAGE], false, [false, false])) && steps == PREFIX[..2]
  {
    states, steps := OneStarted(w);
    Spawned(w, 1, [false]);
    assert FreshPages(2) == [FRESH_PAGE, FRESH_PAGE] && [false] + [false] == [false, false];
    states, steps := Then(states, steps, Fresh(w, FreshPages(1), false, [false]), PREFIX[1],
                          Fresh(w, [FRESH_PAGE, FRESH_PAGE], false, [false, false]));
  }

  lemma FirstHadIt(w: World) returns (states: seq<State>, steps: seq<Machine.Step>)
    requires |w.ram| == 4
    ensures Stuck(states, steps, Fresh(w, [Page0(true), FRESH_PAGE], true, [false, false])) && steps == PREFIX[..4]
  {
    states, steps := BothStarted(w);
    var waiting := Fresh(w, [FRESH_PAGE, FRESH_PAGE], false, [true, false]);
    FirstFault(w);
    states, steps := Then(states, steps, Fresh(w, [FRESH_PAGE, FRESH_PAGE], false, [false, false]), Exec(0), waiting);
    FirstResolved(w);
    states, steps := Then(states, steps, waiting, Resolve(0),
                          Fresh(w, [Page0(true), FRESH_PAGE], true, [false, false]));
  }

  lemma BothHadIt(w: World) returns (states: seq<State>, steps: seq<Machine.Step>)
    requires |w.ram| == 4
    ensures Stuck(states, steps, Stage(w, true, false, false)) && steps == PREFIX
  {
    states, steps := FirstHadIt(w);
    var waiting := Fresh(w, [Page0(true), FRESH_PAGE], true, [false, true]);
    SecondFault(w);
    states, steps := Then(states, steps, Fresh(w, [Page0(true), FRESH_PAGE], true, [false, false]), Exec(1), waiting);
    SecondResolved(w);
    states, steps := Then(states, steps, waiting, Resolve(1), Stage(w, true, false, false));
  }

  // The process whose page is out runs, faults, and gets it, at the other's cost.
  lemma HalfRound(w: World, in1: bool, pid: nat, states: seq<State>, steps: seq<Machine.Step>)
    returns (states': seq<State>, steps': seq<Machine.Step>)
    requires Stuck(states, steps, Stage(w, in1, false, false)) && pid == if in1 then 0 else 1
    ensures Stuck(states', steps', Stage(w, !in1, false, false)) && steps' == steps + [Exec(pid), Resolve(pid)]
  {
    var waiting := Stage(w, in1, in1, !in1);
    LoadFaults(w, in1, false, false, pid);
    states', steps' := Then(states, steps, Stage(w, in1, false, false), Exec(pid), waiting);
    FaultResolved(w, in1, in1, !in1, pid);
    states', steps' := Then(states', steps', waiting, Resolve(pid), Stage(w, !in1, false, false));
  }

  lemma OneRound(w: World, states: seq<State>, steps: seq<Machine.Step>)
    returns (states': seq<State>, steps': seq<Machine.Step>)
    requires Stuck(states, steps, Stage(w, true, false, false))
    ensures Stuck(states', steps', Stage(w, true, false, false)) && steps' == steps + ROUND
  {
    states', steps' := HalfRound(w, true, 0, states, steps);
    states', steps' := HalfRound(w, false, 1, states', steps');
  }

  lemma {:induction false} RoundsTaken(w: World, n: nat) returns (states: seq<State>, steps: seq<Machine.Step>)
    requires |w.ram| == 4
    ensures Stuck(states, steps, Stage(w, true, false, false)) && steps == Rounds(n)
  {
    if n == 0 {
      states, steps := BothHadIt(w);
    } else {
      states, steps := RoundsTaken(w, n - 1);
      states, steps := OneRound(w, states, steps);
    }
  }

  // With one frame, under either algorithm and with any TLB: a run of any number of rounds, in each of
  // which both processes run and have a fault resolved, and in which neither ever executes its first
  // instruction.
  lemma NeitherGetsOn(w: World, n: nat) returns (states: seq<State>, steps: seq<Machine.Step>)
    requires |w.ram| == 4
    ensures IsRun(states, steps) && steps == Rounds(n)
    ensures |states[|steps|].processes| == 2 && forall i :: 0 <= i < |states| ==> AtStart(states[i])
  {
    states, steps := RoundsTaken(w, n);
  }
}
