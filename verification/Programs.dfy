// Programs as consola parses them and as cpu decodes them.
module Programs {
  import opened Words

  datatype Operation = SET | ADD | MOV_IN | MOV_OUT | IO | EXIT

  datatype Interrupt = INT_QUANTUM | INT_IO | INT_PAGE_FAULT | EXECUTION_FINISHED | NO_INTERRUPT | SEGMENTATION_FAULT

  // A t_parameter: registers and integers are both numbers.
  datatype Parameter = Number(value: Int32) | Text(text: string)

  datatype Instruction = Instruction(operation: Operation, parameters: seq<Parameter>)

  // AX, BX, CX, DX
  type Register = x: nat | x < 4

  // What the CPU makes of an instruction.
  datatype Action =
    | Set(target: Register, value: Word)
    | Add(target: Register, source: Register)
    | MovIn(target: Register, dl: nat)
    | MovOut(dl: nat, source: Register)
    | Io(device: string, arg: Int32)
    | Exit

  function AsRegister(p: Parameter): Option<Register> {
    if p.Number? && 0 <= p.value < 4 then Some(p.value) else None
  }

  // Decode, with None where the source would read parameters that are missing or of the wrong kind.
  function Decode(i: Instruction): Option<Action> {
    if i.operation == EXIT then Some(Exit)
    else if |i.parameters| < 2 then None
    else
      var p, q := i.parameters[0], i.parameters[1];
      match i.operation
      case SET => if AsRegister(p).Some? && q.Number? then Some(Set(AsRegister(p).value, Unsigned(q.value))) else None
      case ADD =>
        if AsRegister(p).Some? && AsRegister(q).Some? then Some(Add(AsRegister(p).value, AsRegister(q).value)) else None
      case MOV_IN =>
        if AsRegister(p).Some? && q.Number? && q.value >= 0 then Some(MovIn(AsRegister(p).value, q.value)) else None
      case MOV_OUT =>
        if p.Number? && p.value >= 0 && AsRegister(q).Some? then Some(MovOut(p.value, AsRegister(q).value)) else None
      case IO => if p.Text? && q.Number? then Some(Io(p.text, q.value)) else None
      case EXIT => Some(Exit)
  }

  // What each operation means, parameter by parameter: the first of SET, ADD and MOV_IN is the register
  // written, the second of MOV_OUT the register read.
  lemma Decodes(r: Register, s: Register, x: Int32, dl: Int32, name: string, more: seq<Parameter>)
    requires dl >= 0
    ensures Decode(Instruction(SET, [Number(r), Number(x)] + more)) == Some(Set(r, (x as int) % 0x1_0000_0000))
    ensures Decode(Instruction(ADD, [Number(r), Number(s)] + more)) == Some(Add(r, s))
    ensures Decode(Instruction(MOV_IN, [Number(r), Number(dl)] + more)) == Some(MovIn(r, dl))
    ensures Decode(Instruction(MOV_OUT, [Number(dl), Number(s)] + more)) == Some(MovOut(dl, s))
    ensures Decode(Instruction(IO, [Text(name), Number(x)] + more)) == Some(Io(name, x))
    ensures Decode(Instruction(EXIT, more)) == Some(Exit)
  {
    CastModulo(x);
    var registers, set', in', out, io :=
      [Number(r), Number(s)] + more, [Number(r), Number(x)] + more, [Number(r), Number(dl)] + more,
      [Number(dl), Number(s)] + more, [Text(name), Number(x)] + more;
    assert registers[0] == Number(r) && registers[1] == Number(s) && set'[0] == Number(r) && set'[1] == Number(x);
    assert in'[0] == Number(r) && in'[1] == Number(dl) && out[0] == Number(dl) && out[1] == Number(s);
    assert io[0] == Text(name) && io[1] == Number(x);
  }
}
