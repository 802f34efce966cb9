// Which bytes stand where in an encoded PCB and its tail.
module WireLayout {
  import opened Words
  import opened Programs
  import opened Alone
  import opened Wire

  // An int in four bytes, low byte first, two's complement.
  function Four(x: int): seq<Byte> {
    var w := x % 0x1_0000_0000;
    [w % 0x100, w / 0x100 % 0x100, w / 0x1_0000 % 0x100, w / 0x100_0000]
  }

  // ---------- The numbers of the enumerations ----------

  lemma OperationCodes()
    ensures OperationCode(SET) == 0 && OperationCode(ADD) == 1 && OperationCode(MOV_IN) == 2
    ensures OperationCode(MOV_OUT) == 3 && OperationCode(IO) == 4 && OperationCode(EXIT) == 5
    ensures forall code :: OperationOf(code).Some? <==> 0 <= code <= 5
    ensures forall o :: OperationOf(OperationCode(o)) == Some(o)
  {
  }

  lemma InterruptCodes()
    ensures InterruptCode(INT_QUANTUM) == 0 && InterruptCode(INT_IO) == 1 && InterruptCode(INT_PAGE_FAULT) == 2
    ensures InterruptCode(EXECUTION_FINISHED) == 3 && InterruptCode(NO_INTERRUPT) == 4
    ensures InterruptCode(SEGMENTATION_FAULT) == 5
    ensures forall code :: InterruptOf(code).Some? <==> 0 <= code <= 5
    ensures forall i :: InterruptOf(InterruptCode(i)) == Some(i)
  {
  }

  // ---------- The fields ----------

  lemma Regroup(a: seq<Byte>, b: seq<Byte>, c: seq<Byte>, d: seq<Byte>, e: seq<Byte>, f: seq<Byte>, g: seq<Byte>,
                h: seq<Byte>)
    ensures a + (b + (c + (d + (e + (f + g)) + h))) == a + b + c + d + e + f + g + h
  {
  }

  lemma InFront(z: seq<Byte>, a: seq<Byte>, b: seq<Byte>, c: seq<Byte>, d: seq<Byte>, e: seq<Byte>, f: seq<Byte>,
                g: seq<Byte>, h: seq<Byte>)
    ensures z + (a + b + c + d + e + f + g + h) == z + a + b + c + d + e + f + g + h
  {
  }

  lemma Behind(z: seq<Byte>, l: seq<Byte>, s: seq<Byte>, i: seq<Byte>)
    ensures z + (l + (s + i)) == (z + l) + s + i
  {
  }

  lemma IsFour(x: int)
    ensures EncInt(x) == Four(x)
  {
  }

  lemma WordIsFour(w: Word)
    ensures EncWord(w) == Four(w)
  {
  }

  // The fields of fixed size, four bytes each: opcode, id, interrupt type, counter, the registers, and the
  // console's socket.
  function Fields(opCode: seq<Byte>, id: seq<Byte>, interrupt: seq<Byte>, pc: seq<Byte>, ax: seq<Byte>, bx: seq<Byte>,
                  cx: seq<Byte>, dx: seq<Byte>, socket: seq<Byte>): seq<Byte>
  {
    opCode + id + interrupt + pc + ax + bx + cx + dx + socket
  }

  lemma Joined(opCode: seq<Byte>, id: seq<Byte>, interrupt: seq<Byte>, pc: seq<Byte>, ax: seq<Byte>, bx: seq<Byte>,
               cx: seq<Byte>, dx: seq<Byte>, socket: seq<Byte>, segments: seq<Byte>, instructions: seq<Byte>)
    ensures opCode + ((id + (interrupt + (pc + (ax + (bx + (cx + dx)) + socket)))) + (segments + instructions))
         == Fields(opCode, id, interrupt, pc, ax, bx, cx, dx, socket) + segments + instructions
  {
    Regroup(id, interrupt, pc, ax, bx, cx, dx, socket);
    InFront(opCode, id, interrupt, pc, ax, bx, cx, dx, socket);
    Behind(opCode, id + interrupt + pc + ax + bx + cx + dx + socket, segments, instructions);
  }

  // A PCB is these fields, its opcode being 3, then the segment table and the instructions.
  lemma PcbFields(p: Pcb)
    ensures EncPcb(p)
         == Fields(Four(3), Four(p.id), Four(InterruptCode(p.interruptType)), Four(p.programCounter),
                   Four(p.registers[0]), Four(p.registers[1]), Four(p.registers[2]), Four(p.registers[3]),
                   Four(p.socketConsola))
            + EncSegmentTable(p.segmentTable) + EncInstructions(p.instructions)
  {
    var r := p.registers;
    Joined(EncInt(3), EncInt(p.id), EncInt(InterruptCode(p.interruptType)), EncWord(p.programCounter), EncWord(r[0]),
           EncWord(r[1]), EncWord(r[2]), EncWord(r[3]), EncInt(p.socketConsola), EncSegmentTable(p.segmentTable),
           EncInstructions(p.instructions));
    IsFour(3);
    IsFour(p.id);
    IsFour(InterruptCode(p.interruptType));
    IsFour(p.socketConsola);
    WordIsFour(p.programCounter);
    WordIsFour(r[0]);
    WordIsFour(r[1]);
    WordIsFour(r[2]);
    WordIsFour(r[3]);
  }

  // A segment is its size and its table's index; a table is counted.
  lemma SegmentFields(s: SegmentEntry)
    ensures EncSegmentTable([s]) == Four(1) + Four(s.size) + Four(s.pageTableIndex)
  {
    OneOfMany(EncSegment, s);
  }

  // A parameter starts with a byte that says whether it is a string; a string is its opcode 0, its length
  // with the NUL, its characters and the NUL; a number is four bytes.
  lemma ParameterFields(value: Int32, text: string)
    ensures EncParameter(Number(value)) == [0] + Four(value)
    ensures EncParameter(Text(text)) == [1] + (Four(0) + (Four(|text| + 1) + (EncChars(text) + [0])))
    ensures forall i :: 0 <= i < |text| ==> EncChars(text)[i] == text[i] as int % 0x100
  {
    CharsAt(text);
    IsFour(0);
    IsFour(value);
    IsFour(|text| + 1);
  }

  lemma {:induction false} CharsAt(text: string)
    ensures forall i :: 0 <= i < |text| ==> EncChars(text)[i] == text[i] as int % 0x100
  {
    if text != [] { CharsAt(text[..|text| - 1]); }
  }

  // An instruction list is its opcode 1, its count and the instructions; an instruction is the number of its
  // operation, the number of its parameters, and these.
  lemma InstructionFields(o: Operation, p: Parameter, q: Parameter)
    ensures EncInstructions([Instruction(o, [p, q])])
         == Four(1) + (Four(1) + (Four(OperationCode(o)) + (Four(2) + (EncParameter(p) + EncParameter(q)))))
  {
    var i := Instruction(o, [p, q]);
    OneOfMany(EncInstruction, i);
    TwoOfMany(EncParameter, p, q);
    IsFour(1);
    IsFour(2);
    IsFour(OperationCode(o));
  }

  lemma OneOfMany<T>(enc: T -> seq<Byte>, x: T)
    ensures EncMany(enc, [x]) == enc(x)
  {
    assert [x][..0] == [];
    assert EncMany(enc, [x]) == [] + enc(x);
  }

  lemma TwoOfMany<T>(enc: T -> seq<Byte>, x: T, y: T)
    ensures EncMany(enc, [x, y]) == enc(x) + enc(y)
  {
    OneOfMany(enc, x);
    assert [x, y][..1] == [x];
  }

  // Behind the PCB: nothing, or the device and the argument, or the segment and the page.
  lemma TailFields(m: Message)
    ensures m.tail.Plain? ==> EncMessage(m) == EncPcb(m.pcb)
    ensures m.tail.IoTail? ==> EncMessage(m) == EncPcb(m.pcb) + EncString(m.tail.device) + Four(m.tail.arg)
    ensures m.tail.PfTail? ==> EncMessage(m) == EncPcb(m.pcb) + Four(m.tail.segment) + Four(m.tail.page)
  {
  }
}
