// The buffers that messages are built in and the connections they are read from, loop by loop.
module Streams {
  import opened Words
  import opened Programs
  import opened Alone
  import opened Wire

  lemma EncManyOneMore<T>(enc: T -> seq<Byte>, list: seq<T>, i: nat)
    requires i < |list|
    ensures EncMany(enc, list[..i + 1]) == EncMany(enc, list[..i]) + enc(list[i])
  {
    assert list[..i + 1][..i] == list[..i];
  }

  lemma Appended(a: seq<Byte>, b: seq<Byte>, c: seq<Byte>, d: seq<Byte>)
    ensures ((a + b) + c) + d == a + (b + (c + d))
  {
  }

  // The CPU chooses the tail by the interrupt type.
  function TailOf(i: Interrupt, device: string, arg: Int32, segment: Int32, page: Int32): (t: Tail)
    ensures Sendable(device) ==> TailOk(i, t)
  {
    match i
    case INT_IO => IoTail(device, arg)
    case INT_PAGE_FAULT => PfTail(segment, page)
    case _ => Plain
  }

  // A t_buffer.
  class Buffer {
    var stream: seq<Byte>
    var size: nat

    ghost predicate Valid()
      reads this
    {
      size == |stream|
    }

    // create_buffer
    constructor ()
      ensures Valid() && stream == []
    {
      size, stream := 0, [];
    }

    // add_to_buffer: realloc, and memcpy at the old end
    method AddToBuffer(bytes: seq<Byte>)
      requires Valid()
      modifies this
      ensures Valid() && stream == old(stream) + bytes
    {
      stream := stream[..size] + bytes;
      size := size + |bytes|;
    }

    method AddInt(x: int)
      requires Valid()
      modifies this
      ensures Valid() && stream == old(stream) + EncInt(x)
    {
      AddToBuffer(EncInt(x));
    }

    method AddString(s: string)
      requires Valid()
      modifies this
      ensures Valid() && stream == old(stream) + EncString(s)
    {
      AddInt(STRING);
      var length := |s| + 1;
      AddInt(length);
      AddToBuffer(EncChars(s) + [0]);
    }

    // One parameter inside add_instructions.
    method AddParameter(p: Parameter)
      requires Valid()
      modifies this
      ensures Valid() && stream == old(stream) + EncParameter(p)
    {
      match p
      case Text(text) =>
        AddToBuffer([1]);
        AddString(text);
      case Number(value) =>
        AddToBuffer([0]);
        AddInt(value);
    }

    // One instruction inside add_instructions.
    method AddInstruction(inst: Instruction)
      requires Valid()
      modifies this
      ensures Valid() && stream == old(stream) + EncInstruction(inst)
    {
      AddInt(OperationCode(inst.operation));
      AddInt(|inst.parameters|);
      ghost var before := stream;
      var j := 0;
      while j < |inst.parameters|
        invariant j <= |inst.parameters| && Valid()
        invariant stream == before + EncMany(EncParameter, inst.parameters[..j])
      {
        EncManyOneMore(EncParameter, inst.parameters, j);
        Assoc(before, EncMany(EncParameter, inst.parameters[..j]), EncParameter(inst.parameters[j]));
        AddParameter(inst.parameters[j]);
        j := j + 1;
      }
      assert inst.parameters[..j] == inst.parameters;
      Appended(old(stream), EncInt(OperationCode(inst.operation)), EncInt(|inst.parameters|),
               EncMany(EncParameter, inst.parameters));
    }

    method AddInstructions(instructions: seq<Instruction>)
      requires Valid()
      modifies this
      ensures Valid() && stream == old(stream) + EncInstructions(instructions)
    {
      AddInt(INSTRUCTIONS);
      AddInt(|instructions|);
      ghost var before := stream;
      var i := 0;
      while i < |instructions|
        invariant i <= |instructions| && Valid()
        invariant stream == before + EncMany(EncInstruction, instructions[..i])
      {
        EncManyOneMore(EncInstruction, instructions, i);
        Assoc(before, EncMany(EncInstruction, instructions[..i]), EncInstruction(instructions[i]));
        AddInstruction(instructions[i]);
        i := i + 1;
      }
      assert instructions[..i] == instructions;
      Appended(old(stream), EncInt(INSTRUCTIONS), EncInt(|instructions|), EncMany(EncInstruction, instructions));
    }

    method AddSegmentTable(segments: seq<SegmentEntry>)
      requires Valid()
      modifies this
      ensures Valid() && stream == old(stream) + EncSegmentTable(segments)
    {
      AddInt(|segments|);
      ghost var before := stream;
      var i := 0;
      while i < |segments|
        invariant i <= |segments| && Valid()
        invariant stream == before + EncMany(EncSegment, segments[..i])
      {
        EncManyOneMore(EncSegment, segments, i);
        Assoc(before, EncMany(EncSegment, segments[..i]), EncSegment(segments[i]));
        AddInt(segments[i].size);
        AddInt(segments[i].pageTableIndex);
        i := i + 1;
      }
      assert segments[..i] == segments;
    }

    method AddRegisters(registers: RegisterFile)
      requires Valid()
      modifies this
      ensures Valid() && stream == old(stream) + EncRegisters(registers)
    {
      AddToBuffer(EncWord(registers[0]));
      AddToBuffer(EncWord(registers[1]));
      AddToBuffer(EncWord(registers[2]));
      AddToBuffer(EncWord(registers[3]));
    }

    method AddContext(pcb: Pcb)
      requires Valid()
      modifies this
      ensures Valid() && stream == old(stream) + EncContext(pcb)
    {
      AddInt(pcb.id);
      AddInt(InterruptCode(pcb.interruptType));
      AddToBuffer(EncWord(pcb.programCounter));
      AddRegisters(pcb.registers);
      AddInt(pcb.socketConsola);
    }

    method AddPcb(pcb: Pcb)
      requires Valid()
      modifies this
      ensures Valid() && stream == old(stream) + EncPcb(pcb)
    {
      AddInt(PCB);
      AddContext(pcb);
      AddSegmentTable(pcb.segmentTable);
      AddInstructions(pcb.instructions);
      Appended(old(stream), EncInt(PCB), EncContext(pcb), EncSegmentTable(pcb.segmentTable));
      Assoc(old(stream), EncInt(PCB) + (EncContext(pcb) + EncSegmentTable(pcb.segmentTable)),
            EncInstructions(pcb.instructions));
      Assoc(EncInt(PCB), EncContext(pcb) + EncSegmentTable(pcb.segmentTable), EncInstructions(pcb.instructions));
      Assoc(EncContext(pcb), EncSegmentTable(pcb.segmentTable), EncInstructions(pcb.instructions));
    }

    // What send_pcb_io and send_pcb_pf add to what send_pcb sends.
    method AddTail(interruptType: Interrupt, device: string, arg: Int32, segment: Int32, page: Int32)
      returns (ghost tail: Tail)
      requires Valid()
      modifies this
      ensures tail == TailOf(interruptType, device, arg, segment, page)
      ensures Valid() && stream == old(stream) + EncTail(tail)
    {
      tail := TailOf(interruptType, device, arg, segment, page);
      match interruptType {
        case INT_IO =>
          AddString(device);
          AddInt(arg);
          Assoc(old(stream), EncString(device), EncInt(arg));
        case INT_PAGE_FAULT =>
          AddInt(segment);
          AddInt(page);
          Assoc(old(stream), EncInt(segment), EncInt(page));
        case _ =>
          assert stream + [] == stream;
      }
    }

    method AddMessage(pcb: Pcb, device: string, arg: Int32, segment: Int32, page: Int32) returns (ghost sent: Message)
      requires Valid() && stream == []
      modifies this
      ensures sent == Message(pcb, TailOf(pcb.interruptType, device, arg, segment, page))
      ensures Valid() && stream == EncMessage(sent)
    {
      AddPcb(pcb);
      assert stream == EncPcb(pcb);
      ghost var tail := AddTail(pcb.interruptType, device, arg, segment, page);
      sent := Message(pcb, tail);
    }
  }

  // One direction of a socket: the bytes sent and not received yet.
  class Connection {
    var bytes: seq<Byte>

    constructor ()
      ensures bytes == []
    {
      bytes := [];
    }

    // send_buffer
    method SendBuffer(buffer: Buffer)
      requires buffer.Valid()
      modifies this
      ensures bytes == old(bytes) + buffer.stream
    {
      bytes := bytes + buffer.stream[..buffer.size];
    }

    // The end of instruction_cycle: send_pcb_io, send_pcb_pf or send_pcb.
    method SendByInterrupt(pcb: Pcb, device: string, arg: Int32, segment: Int32, page: Int32)
      returns (ghost sent: Message)
      modifies this
      ensures bytes == old(bytes) + EncMessage(sent)
      ensures sent == Message(pcb, TailOf(pcb.interruptType, device, arg, segment, page))
    {
      var buffer := new Buffer();
      sent := buffer.AddMessage(pcb, device, arg, segment, page);
      SendBuffer(buffer);
    }

    // recv of n bytes; None where it would wait for ever
    method Recv(n: nat) returns (r: Option<seq<Byte>>)
      modifies this
      ensures if old(|bytes|) < n then r.None? else r == Some(old(bytes)[..n]) && bytes == old(bytes)[n..]
    {
      if |bytes| < n {
        return None;
      }
      r := Some(bytes[..n]);
      bytes := bytes[n..];
    }

    method RecvInt() returns (r: Option<Int32>)
      modifies this
      ensures if r.Some? then DecInt(old(bytes)) == Some((r.value, bytes)) else DecInt(old(bytes)).None?
    {
      var four := Recv(4);
      if four.None? {
        return None;
      }
      r := Some(Signed(FromLe32(four.value)));
    }

    method RecvOpCode(code: nat) returns (ok: bool)
      modifies this
      ensures DecOpCode(code, old(bytes)) == if ok then Some(bytes) else None
    {
      var received := RecvInt();
      ok := received == Some(code);
    }

    method RecvString() returns (r: Option<string>)
      modifies this
      ensures if r.Some? then DecString(old(bytes)) == Some((r.value, bytes)) else DecString(old(bytes)).None?
    {
      var ok := RecvOpCode(STRING);
      if !ok { return None; }
      var length := RecvInt();
      if length.None? || length.value <= 0 { return None; }
      var chars := Recv(length.value);
      if chars.None? { return None; }
      r := CString(chars.value);
    }

    // One parameter inside recv_instructions.
    method RecvParameter() returns (r: Option<Parameter>)
      modifies this
      ensures if r.Some? then DecParameter(old(bytes)) == Some((r.value, bytes)) else DecParameter(old(bytes)).None?
    {
      var isString := Recv(1);
      if isString.None? { return None; }
      if isString.value[0] != 0 {
        var text := RecvString();
        r := if text.Some? then Some(Text(text.value)) else None;
      } else {
        var value := RecvInt();
        r := if value.Some? then Some(Number(value.value)) else None;
      }
    }

    // One round of the inner loop of recv_instructions.
    method RecvParameterMore(parameters: seq<Parameter>, ghost j: nat, ghost start: seq<Byte>)
      returns (r: Option<seq<Parameter>>)
      requires DecMany(DecParameter, j, start) == Some((parameters, bytes))
      modifies this
      ensures if r.Some? then DecMany(DecParameter, j + 1, start) == Some((r.value, bytes))
              else DecMany(DecParameter, j + 1, start).None?
    {
      ghost var before := bytes;
      var parameter := RecvParameter();
      if parameter.None? { return None; }
      DecManyOneMore(DecParameter, j, start, parameters, before, parameter.value, bytes);
      r := Some(parameters + [parameter.value]);
    }

    // That loop.
    method RecvParameters(count: int) returns (r: Option<seq<Parameter>>)
      modifies this
      ensures var n := if count < 0 then 0 else count;
              if r.Some? then DecMany(DecParameter, n, old(bytes)) == Some((r.value, bytes))
              else DecMany(DecParameter, n, old(bytes)).None?
    {
      ghost var start, n: nat := bytes, if count < 0 then 0 else count;
      r := Some([]);
      var j := 0;
      while j < count
        invariant 0 <= j <= n
        invariant r.Some? && DecMany(DecParameter, j, start) == Some((r.value, bytes))
      {
        r := RecvParameterMore(r.value, j, start);
        if r.None? {
          DecManyFails(DecParameter, j + 1, n, start);
          return;
        }
        j := j + 1;
      }
    }

    // One instruction inside recv_instructions.
    method RecvInstruction() returns (r: Option<Instruction>)
      modifies this
      ensures if r.Some? then DecInstruction(old(bytes)) == Some((r.value, bytes)) else DecInstruction(old(bytes)).None?
    {
      var code := RecvInt();
      if code.None? { return None; }
      var count := RecvInt();
      if count.None? { return None; }
      var parameters := RecvParameters(count.value);
      if parameters.None? { return None; }
      var operation := OperationOf(code.value);
      r := if operation.Some? then Some(Instruction(operation.value, parameters.value)) else None;
    }

    // One round of the outer loop of recv_instructions.
    method RecvOneMore(instructions: seq<Instruction>, ghost i: nat, ghost start: seq<Byte>)
      returns (r: Option<seq<Instruction>>)
      requires DecMany(DecInstruction, i, start) == Some((instructions, bytes))
      modifies this
      ensures if r.Some? then DecMany(DecInstruction, i + 1, start) == Some((r.value, bytes))
              else DecMany(DecInstruction, i + 1, start).None?
    {
      ghost var before := bytes;
      var instruction := RecvInstruction();
      if instruction.None? { return None; }
      DecManyOneMore(DecInstruction, i, start, instructions, before, instruction.value, bytes);
      r := Some(instructions + [instruction.value]);
    }

    // That loop.
    method RecvCounted(count: int) returns (r: Option<seq<Instruction>>)
      modifies this
      ensures var n := if count < 0 then 0 else count;
              if r.Some? then DecMany(DecInstruction, n, old(bytes)) == Some((r.value, bytes))
              else DecMany(DecInstruction, n, old(bytes)).None?
    {
      ghost var start, n: nat := bytes, if count < 0 then 0 else count;
      r := Some([]);
      var i := 0;
      while i < count
        invariant 0 <= i <= n
        invariant r.Some? && DecMany(DecInstruction, i, start) == Some((r.value, bytes))
      {
        r := RecvOneMore(r.value, i, start);
        if r.None? {
          DecManyFails(DecInstruction, i + 1, n, start);
          return;
        }
        i := i + 1;
      }
    }

    method RecvInstructions() returns (r: Option<seq<Instruction>>)
      modifies this
      ensures if r.Some? then DecInstructions(old(bytes)) == Some((r.value, bytes))
              else DecInstructions(old(bytes)).None?
    {
      var ok := RecvOpCode(INSTRUCTIONS);
      if !ok { return None; }
      var count := RecvInt();
      if count.None? { return None; }
      r := RecvCounted(count.value);
    }

    method RecvSegment() returns (r: Option<SegmentEntry>)
      modifies this
      ensures if r.Some? then DecSegment(old(bytes)) == Some((r.value, bytes)) else DecSegment(old(bytes)).None?
    {
      var size := RecvInt();
      if size.None? { return None; }
      var index := RecvInt();
      if index.None? { return None; }
      r := Some(SegmentEntry(size.value, index.value));
    }

    method RecvSegmentTable() returns (r: Option<seq<SegmentEntry>>)
      modifies this
      ensures if r.Some? then DecSegmentTable(old(bytes)) == Some((r.value, bytes))
              else DecSegmentTable(old(bytes)).None?
    {
      var count := RecvInt();
      if count.None? { return None; }
      ghost var start, n := bytes, if count.value < 0 then 0 else count.value;
      var segments: seq<SegmentEntry> := [];
      var i := 0;
      while i < count.value
        invariant 0 <= i <= n
        invariant DecMany(DecSegment, i, start) == Some((segments, bytes))
      {
        ghost var before := bytes;
        var segment := RecvSegment();
        if segment.None? {
          DecManyFails(DecSegment, i + 1, n, start);
          return None;
        }
        DecManyOneMore(DecSegment, i, start, segments, before, segment.value, bytes);
        segments := segments + [segment.value];
        i := i + 1;
      }
      r := Some(segments);
    }

    method RecvWord() returns (r: Option<Word>)
      modifies this
      ensures if r.Some? then DecWord(old(bytes)) == Some((r.value, bytes)) else DecWord(old(bytes)).None?
    {
      var four := Recv(4);
      r := if four.Some? then Some(FromLe32(four.value)) else None;
    }

    // The reads of recv_pcb up to the segment table.
    method RecvContext() returns (r: Option<Pcb>)
      modifies this
      ensures if r.Some? then DecContext(old(bytes)) == Some((r.value, bytes)) else DecContext(old(bytes)).None?
    {
      var id := RecvInt();
      if id.None? { return None; }
      var code := RecvInt();
      if code.None? { return None; }
      var interruptType := InterruptOf(code.value);
      if interruptType.None? { return None; }
      var programCounter := RecvWord();
      if programCounter.None? { return None; }
      var registers := RecvRegisters();
      if registers.None? { return None; }
      var socket := RecvInt();
      if socket.None? { return None; }
      r := Some(Pcb(id.value, interruptType.value, programCounter.value, registers.value, socket.value, [], []));
    }

    method RecvRegisters() returns (r: Option<RegisterFile>)
      modifies this
      ensures if r.Some? then DecRegisters(old(bytes)) == Some((r.value, bytes)) else DecRegisters(old(bytes)).None?
    {
      var ax := RecvWord();
      if ax.None? { return None; }
      var bx := RecvWord();
      if bx.None? { return None; }
      var cx := RecvWord();
      if cx.None? { return None; }
      var dx := RecvWord();
      if dx.None? { return None; }
      r := Some([ax.value, bx.value, cx.value, dx.value]);
    }

    method RecvPcb() returns (r: Option<Pcb>)
      modifies this
      ensures if r.Some? then DecPcb(old(bytes)) == Some((r.value, bytes)) else DecPcb(old(bytes)).None?
    {
      var ok := RecvOpCode(PCB);
      if !ok { return None; }
      var context := RecvContext();
      if context.None? { return None; }
      var segmentTable := RecvSegmentTable();
      if segmentTable.None? { return None; }
      var instructions := RecvInstructions();
      if instructions.None? { return None; }
      r := Some(context.value.(segmentTable := segmentTable.value, instructions := instructions.value));
    }

    // What wait_cpu_dispatch reads of one message.
    method RecvDispatch() returns (r: Option<Message>)
      modifies this
      ensures if r.Some? then DecMessage(old(bytes)) == Some((r.value, bytes)) else DecMessage(old(bytes)).None?
    {
      var pcb := RecvPcb();
      if pcb.None? { return None; }
      match pcb.value.interruptType {
        case INT_IO =>
          var device := RecvString();
          if device.None? { return None; }
          var arg := RecvInt();
          if arg.None? { return None; }
          r := Some(Message(pcb.value, IoTail(device.value, arg.value)));
        case INT_PAGE_FAULT =>
          var segment := RecvInt();
          if segment.None? { return None; }
          var page := RecvInt();
          if page.None? { return None; }
          r := Some(Message(pcb.value, PfTail(segment.value, page.value)));
        case _ =>
          r := Some(Message(pcb.value, Plain));
      }
    }
  }

  lemma DecManyOneMore<T>(dec: seq<Byte> -> Decoded<T>, i: nat, b: seq<Byte>, front: seq<T>, b1: seq<Byte>,
                          last: T, b2: seq<Byte>)
    requires DecMany(dec, i, b) == Some((front, b1)) && dec(b1) == Some((last, b2))
    ensures DecMany(dec, i + 1, b) == Some((front + [last], b2))
  {
  }

  // One value that does not decode spoils the list.
  lemma {:induction false} DecManyFails<T>(dec: seq<Byte> -> Decoded<T>, i: nat, n: nat, b: seq<Byte>)
    requires i <= n && DecMany(dec, i, b).None?
    ensures DecMany(dec, n, b).None?
    decreases n
  {
    if i < n { DecManyFails(dec, i, n - 1, b); }
  }
}
