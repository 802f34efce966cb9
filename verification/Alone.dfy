// What a program does by itself: registers, a program counter and a flat memory of its own.
module Alone {
  import opened Words
  import opened Programs
  import Mmu

  type RegisterFile = r: seq<Word> | |r| == 4 witness [0, 0, 0, 0]

  datatype Status = Running | Waiting(device: string, arg: Int32) | Exited | Killed

  datatype Core = Core(registers: RegisterFile, pc: nat, status: Status)

  // The cells are the bytes written so far, by logical address.
  datatype Private = Private(core: Core, cells: map<nat, Byte>)

  // One instruction, with what bytes never written read as; or the end of an I/O, with the value typed.
  datatype Event = Ran(unwritten: Word) | Resumed(value: Word)

  const START := Core([0, 0, 0, 0], 0, Running)

  function Cell(cells: map<nat, Byte>, a: nat, unwritten: Byte): Byte {
    if a in cells then cells[a] else unwritten
  }

  function Load(cells: map<nat, Byte>, dl: nat, unwritten: Word): Word {
    var filler := Le32(unwritten);
    FromLe32([Cell(cells, dl, filler[0]), Cell(cells, dl + 1, filler[1]),
              Cell(cells, dl + 2, filler[2]), Cell(cells, dl + 3, filler[3])])
  }

  function Store(cells: map<nat, Byte>, dl: nat, value: Word): map<nat, Byte> {
    var bytes := Le32(value);
    cells[dl := bytes[0]][dl + 1 := bytes[1]][dl + 2 := bytes[2]][dl + 3 := bytes[3]]
  }

  // set_execute, add_execute, I/O and EXIT: what needs no memory.
  function Compute(c: Core, action: Action): Core {
    match action
    case Set(r, value) => c.(registers := c.registers[r := value], pc := c.pc + 1)
    case Add(r, s) => c.(registers := c.registers[r := Plus(c.registers[r], c.registers[s])], pc := c.pc + 1)
    case Io(device, arg) => c.(pc := c.pc + 1, status := Waiting(device, arg))
    case _ => c.(status := Exited)
  }

  function Loaded(c: Core, r: Register, value: Word): Core {
    c.(registers := c.registers[r := value], pc := c.pc + 1)
  }

  // handle_teclado stores the value typed; other devices only end.
  function Resume(c: Core, value: Word): Option<Core> {
    if !c.status.Waiting? then None
    else if c.status.device != "TECLADO" then Some(c.(status := Running))
    else if 0 <= c.status.arg < 4 then Some(c.(registers := c.registers[c.status.arg := value], status := Running))
    else None
  }

  // The next action; None when the process is not running or its counter is off the program.
  function Next(program: seq<Instruction>, c: Core): Option<Action> {
    if c.status.Running? && c.pc < |program| then Decode(program[c.pc]) else None
  }

  // One event of a program with segments of these sizes, each given `span` logical addresses.
  function Step(program: seq<Instruction>, sizes: seq<nat>, span: nat, p: Private, event: Event): Option<Private>
    requires span > 0
  {
    match event
    case Resumed(value) =>
      var c := Resume(p.core, value);
      if c.None? then None else Some(p.(core := c.value))
    case Ran(unwritten) =>
      var next := Next(program, p.core);
      if next.None? then None
      else if next.value.MovIn? || next.value.MovOut? then
        var dl := next.value.dl;
        if dl / span >= |sizes| then None
        else if dl % span >= sizes[dl / span] then Some(p.(core := p.core.(status := Killed)))
        else if next.value.MovIn? then
          Some(p.(core := Loaded(p.core, next.value.target, Load(p.cells, dl, unwritten))))
        else
          Some(Private(p.core.(pc := p.core.pc + 1), Store(p.cells, dl, p.core.registers[next.value.source])))
      else Some(p.(core := Compute(p.core, next.value)))
  }

  // The whole history of a program run alone.
  function Run(program: seq<Instruction>, sizes: seq<nat>, span: nat, events: seq<Event>): Option<Private>
    requires span > 0
  {
    if events == [] then Some(Private(START, map[]))
    else
      var before := Run(program, sizes, span, events[..|events| - 1]);
      if before.None? then None else Step(program, sizes, span, before.value, events[|events| - 1])
  }

  // ---------- What each instruction does ----------

  // SET, ADD, I/O and EXIT: the register written, the counter and the status; all other registers stay.
  lemma Computes(c: Core, r: Register, s: Register, value: Word, device: string, arg: Int32)
    requires c.status.Running?
    ensures var (c', n) := (Compute(c, Set(r, value)), c.registers);
            && c'.registers[r] == value && (forall i :: 0 <= i < 4 && i != r ==> c'.registers[i] == n[i])
            && c'.pc == c.pc + 1 && c'.status.Running?
    ensures var (c', n) := (Compute(c, Add(r, s)), c.registers);
            && c'.registers[r] == ((n[r] as int) + n[s]) % 0x1_0000_0000
            && (forall i :: 0 <= i < 4 && i != r ==> c'.registers[i] == n[i])
            && c'.pc == c.pc + 1 && c'.status.Running?
    ensures Compute(c, Io(device, arg)) == Core(c.registers, c.pc + 1, Waiting(device, arg))
    ensures Compute(c, Exit) == Core(c.registers, c.pc, Exited)
  {
    PlusIsSum(c.registers[r], c.registers[s]);
  }

  // The end of an I/O: what was typed is in the register TECLADO was given, and nothing else changed.
  lemma Resumes(c: Core, value: Word)
    requires c.status.Waiting?
    ensures Resume(c, value).None? <==> c.status.device == "TECLADO" && !(0 <= c.status.arg < 4)
    ensures Resume(c, value).Some? ==>
              var c', typed := Resume(c, value).value, c.status.device == "TECLADO";
              && c'.status.Running? && c'.pc == c.pc && (typed ==> c'.registers[c.status.arg] == value)
              && forall i :: 0 <= i < 4 && !(typed && i == c.status.arg) ==> c'.registers[i] == c.registers[i]
  {
  }

  // A MOV on offset `offset` of segment `segment`: it kills the process exactly when the offset is not
  // below the segment's size; else MOV_IN fills its register and MOV_OUT stores from its register.
  lemma Moves(program: seq<Instruction>, sizes: seq<nat>, span: nat, p: Private, segment: nat, offset: nat, r: Register,
              dl: nat, unwritten: Word)
    requires segment < |sizes| && offset < span && dl == segment * span + offset
    requires Next(program, p.core) == Some(MovIn(r, dl)) || Next(program, p.core) == Some(MovOut(dl, r))
    ensures Step(program, sizes, span, p, Ran(unwritten)).Some?
    ensures var p', c := Step(program, sizes, span, p, Ran(unwritten)).value, p.core;
            if offset >= sizes[segment] then p' == Private(Core(c.registers, c.pc, Killed), p.cells)
            else if Next(program, c).value.MovIn? then
              && p'.cells == p.cells && p'.core.pc == c.pc + 1 && p'.core.status.Running?
              && p'.core.registers == c.registers[r := Load(p.cells, dl, unwritten)]
            else
              p' == Private(Core(c.registers, c.pc + 1, c.status), Store(p.cells, dl, c.registers[r]))
  {
    Mmu.DivModUnique(segment, offset, span);
  }

  // A load sees what was stored there last, and bytes stored elsewhere do not show.
  lemma LoadAfterStore(cells: map<nat, Byte>, dl: nat, value: Word, unwritten: Word, other: nat)
    ensures Load(Store(cells, dl, value), dl, unwritten) == value
    ensures other + 4 <= dl || dl + 4 <= other ==>
              Load(Store(cells, dl, value), other, unwritten) == Load(cells, other, unwritten)
  {
    LeRoundTrip(value);
    assert [Cell(Store(cells, dl, value), dl, Le32(unwritten)[0]),
            Cell(Store(cells, dl, value), dl + 1, Le32(unwritten)[1]),
            Cell(Store(cells, dl, value), dl + 2, Le32(unwritten)[2]),
            Cell(Store(cells, dl, value), dl + 3, Le32(unwritten)[3])]
        == Le32(value);
  }

  // A word that agrees with every cell it covers is the word loaded when it fills in the rest.
  lemma LoadAgrees(cells: map<nat, Byte>, dl: nat, value: Word)
    requires forall i :: 0 <= i < 4 && dl + i in cells ==> cells[dl + i] == Le32(value)[i]
    ensures Load(cells, dl, value) == value
  {
    LeRoundTrip(value);
    var b := Le32(value);
    assert [Cell(cells, dl, b[0]), Cell(cells, dl + 1, b[1]), Cell(cells, dl + 2, b[2]), Cell(cells, dl + 3, b[3])]
        == b;
  }

  // ---------- A program that reads only what it wrote ----------

  predicate Written(cells: map<nat, Byte>, dl: nat) {
    dl in cells && dl + 1 in cells && dl + 2 in cells && dl + 3 in cells
  }

  // Along this history every load is of bytes the program stored before.
  ghost predicate ReadsOwn(program: seq<Instruction>, sizes: seq<nat>, span: nat, events: seq<Event>)
    requires span > 0
  {
    events == [] ||
    (&& ReadsOwn(program, sizes, span, events[..|events| - 1])
     && var before := Run(program, sizes, span, events[..|events| - 1]);
        before.Some? && events[|events| - 1].Ran? ==>
          var next := Next(program, before.value.core);
          next.Some? && next.value.MovIn? ==> Written(before.value.cells, next.value.dl))
  }

  // The same inputs in the same order.
  ghost predicate Alike(a: seq<Event>, b: seq<Event>) {
    |a| == |b| && forall i :: 0 <= i < |a| ==> if a[i].Ran? then b[i].Ran? else a[i] == b[i]
  }

  // What bytes never written read as does not show in one of its steps.
  lemma SameStep(program: seq<Instruction>, sizes: seq<nat>, span: nat, p: Private, e: Event, f: Event)
    requires span > 0 && if e.Ran? then f.Ran? else e == f
    requires var next := Next(program, p.core);
             e.Ran? && next.Some? && next.value.MovIn? ==> Written(p.cells, next.value.dl)
    ensures Step(program, sizes, span, p, e) == Step(program, sizes, span, p, f)
  {
  }

  // Such a program depends on nothing but what is typed.
  lemma {:induction false} OnlyInputsMatter(program: seq<Instruction>, sizes: seq<nat>, span: nat, a: seq<Event>,
                                            b: seq<Event>)
    requires span > 0 && Alike(a, b) && ReadsOwn(program, sizes, span, a)
    ensures Run(program, sizes, span, a) == Run(program, sizes, span, b)
    decreases |a|
  {
    if a != [] {
      var last := |a| - 1;
      OnlyInputsMatter(program, sizes, span, a[..last], b[..last]);
      var before := Run(program, sizes, span, a[..last]);
      if before.Some? { SameStep(program, sizes, span, before.value, a[last], b[last]); }
    }
  }
}
