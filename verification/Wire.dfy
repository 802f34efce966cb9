// The byte format in which kernel, CPU and memoria send PCBs to each other.
module Wire {
  import opened Words
  import opened Programs
  import opened Alone

  // ---------- Values ----------

  datatype SegmentEntry = SegmentEntry(size: Int32, pageTableIndex: Int32)

  datatype Pcb = Pcb(id: Int32, interruptType: Interrupt, programCounter: Word, registers: RegisterFile,
                     socketConsola: Int32, segmentTable: seq<SegmentEntry>, instructions: seq<Instruction>)

  // What follows the PCB, by its interrupt type.
  datatype Tail = Plain | IoTail(device: string, arg: Int32) | PfTail(segment: Int32, page: Int32)

  datatype Message = Message(pcb: Pcb, tail: Tail)

  // A decoder gives the value and the bytes it left, or None when it would block, exit or read astray.
  type Decoded<T> = Option<(T, seq<Byte>)>

  const STRING := 0
  const INSTRUCTIONS := 1
  const PCB := 3

  function OperationCode(o: Operation): nat {
    match o case SET => 0 case ADD => 1 case MOV_IN => 2 case MOV_OUT => 3 case IO => 4 case EXIT => 5
  }

  function OperationOf(code: int): Option<Operation> {
    match code
    case 0 => Some(SET) case 1 => Some(ADD) case 2 => Some(MOV_IN) case 3 => Some(MOV_OUT) case 4 => Some(IO)
    case 5 => Some(EXIT) case _ => None
  }

  function InterruptCode(i: Interrupt): nat {
    match i
    case INT_QUANTUM => 0 case INT_IO => 1 case INT_PAGE_FAULT => 2 case EXECUTION_FINISHED => 3
    case NO_INTERRUPT => 4 case SEGMENTATION_FAULT => 5
  }

  function InterruptOf(code: int): Option<Interrupt> {
    match code
    case 0 => Some(INT_QUANTUM) case 1 => Some(INT_IO) case 2 => Some(INT_PAGE_FAULT) case 3 => Some(EXECUTION_FINISHED)
    case 4 => Some(NO_INTERRUPT) case 5 => Some(SEGMENTATION_FAULT) case _ => None
  }

  // ---------- Encoders ----------

  function EncWord(w: Word): seq<Byte> {
    Le32(w)
  }

  // An int as its four bytes, whatever it is.
  function EncInt(x: int): seq<Byte> {
    Le32(x % 0x1_0000_0000)
  }

  function EncChar(c: char): Byte {
    c as int % 0x100
  }

  function EncChars(s: string): (bytes: seq<Byte>)
    ensures |bytes| == |s|
  {
    if s == [] then [] else EncChars(s[..|s| - 1]) + [EncChar(s[|s| - 1])]
  }

  // add_string
  function EncString(s: string): seq<Byte> {
    EncInt(STRING) + (EncInt(|s| + 1) + (EncChars(s) + [0]))
  }

  function EncParameter(p: Parameter): seq<Byte> {
    match p
    case Text(text) => [1] + EncString(text)
    case Number(value) => [0] + EncInt(value)
  }

  function EncMany<T>(enc: T -> seq<Byte>, list: seq<T>): seq<Byte> {
    if list == [] then [] else EncMany(enc, list[..|list| - 1]) + enc(list[|list| - 1])
  }

  function EncInstruction(i: Instruction): seq<Byte> {
    EncInt(OperationCode(i.operation)) + (EncInt(|i.parameters|) + EncMany(EncParameter, i.parameters))
  }

  // add_instructions
  function EncInstructions(instructions: seq<Instruction>): seq<Byte> {
    EncInt(INSTRUCTIONS) + (EncInt(|instructions|) + EncMany(EncInstruction, instructions))
  }

  function EncSegment(s: SegmentEntry): seq<Byte> {
    EncInt(s.size) + EncInt(s.pageTableIndex)
  }

  // add_segment_table
  function EncSegmentTable(segments: seq<SegmentEntry>): seq<Byte> {
    EncInt(|segments|) + EncMany(EncSegment, segments)
  }

  // add_registers
  function EncRegisters(r: RegisterFile): seq<Byte> {
    EncWord(r[0]) + (EncWord(r[1]) + (EncWord(r[2]) + EncWord(r[3])))
  }

  // The part of a PCB of fixed length.
  function EncContext(p: Pcb): seq<Byte> {
    EncInt(p.id) + (EncInt(InterruptCode(p.interruptType)) + (EncWord(p.programCounter)
    + (EncRegisters(p.registers) + EncInt(p.socketConsola))))
  }

  // add_pcb
  function EncPcb(p: Pcb): seq<Byte> {
    EncInt(PCB) + (EncContext(p) + (EncSegmentTable(p.segmentTable) + EncInstructions(p.instructions)))
  }

  function EncTail(t: Tail): seq<Byte> {
    match t
    case Plain => []
    case IoTail(device, arg) => EncString(device) + EncInt(arg)
    case PfTail(segment, page) => EncInt(segment) + EncInt(page)
  }

  // send_pcb, send_pcb_io or send_pcb_pf
  function EncMessage(m: Message): seq<Byte> {
    EncPcb(m.pcb) + EncTail(m.tail)
  }

  // ---------- Decoders ----------

  function DecWord(b: seq<Byte>): Decoded<Word> {
    if |b| < 4 then None else Some((FromLe32(b[..4]), b[4..]))
  }

  // recv_int
  function DecInt(b: seq<Byte>): Decoded<Int32> {
    if |b| < 4 then None else Some((Signed(FromLe32(b[..4])), b[4..]))
  }

  // recv_and_validate_op_code_is
  function DecOpCode(code: nat, b: seq<Byte>): Option<seq<Byte>> {
    var (received, rest) :- DecInt(b);
    if received == code then Some(rest) else None
  }

  // The C string in a buffer: up to its first NUL, None if there is none.
  function CString(b: seq<Byte>): Option<string> {
    if b == [] then None
    else if b[0] == 0 then Some("")
    else
      var tail :- CString(b[1..]);
      Some([b[0] as char] + tail)
  }

  // recv_string
  function DecString(b: seq<Byte>): Decoded<string> {
    var b1 :- DecOpCode(STRING, b);
    var (length, b2) :- DecInt(b1);
    if length <= 0 || |b2| < length then None
    else
      var s :- CString(b2[..length]);
      Some((s, b2[length..]))
  }

  function DecParameter(b: seq<Byte>): Decoded<Parameter> {
    if b == [] then None
    else if b[0] != 0 then
      var (text, rest) :- DecString(b[1..]);
      Some((Text(text), rest))
    else
      var (value, rest) :- DecInt(b[1..]);
      Some((Number(value), rest))
  }

  // n values, one after the other
  function DecMany<T>(dec: seq<Byte> -> Decoded<T>, n: nat, b: seq<Byte>): Decoded<seq<T>> {
    if n == 0 then Some(([], b))
    else
      var (front, b1) :- DecMany(dec, n - 1, b);
      var (last, b2) :- dec(b1);
      Some((front + [last], b2))
  }

  // A count and that many values; none at all for a negative count.
  function DecList<T>(dec: seq<Byte> -> Decoded<T>, b: seq<Byte>): Decoded<seq<T>> {
    var (count, b1) :- DecInt(b);
    DecMany(dec, if count < 0 then 0 else count, b1)
  }

  function DecInstruction(b: seq<Byte>): Decoded<Instruction> {
    var (code, b1) :- DecInt(b);
    var (parameters, b2) :- DecList(DecParameter, b1);
    var operation :- OperationOf(code);
    Some((Instruction(operation, parameters), b2))
  }

  // recv_instructions
  function DecInstructions(b: seq<Byte>): Decoded<seq<Instruction>> {
    var b1 :- DecOpCode(INSTRUCTIONS, b);
    DecList(DecInstruction, b1)
  }

  function DecSegment(b: seq<Byte>): Decoded<SegmentEntry> {
    var (size, b1) :- DecInt(b);
    var (index, b2) :- DecInt(b1);
    Some((SegmentEntry(size, index), b2))
  }

  // recv_segment_table
  function DecSegmentTable(b: seq<Byte>): Decoded<seq<SegmentEntry>> {
    DecList(DecSegment, b)
  }

  function DecRegisters(b: seq<Byte>): Decoded<RegisterFile> {
    var (ax, b1) :- DecWord(b);
    var (bx, b2) :- DecWord(b1);
    var (cx, b3) :- DecWord(b2);
    var (dx, b4) :- DecWord(b3);
    Some(([ax, bx, cx, dx], b4))
  }

  function DecContext(b: seq<Byte>): Decoded<Pcb> {
    var (id, b1) :- DecInt(b);
    var (code, b2) :- DecInt(b1);
    var interruptType :- InterruptOf(code);
    var (programCounter, b3) :- DecWord(b2);
    var (registers, b4) :- DecRegisters(b3);
    var (socket, b5) :- DecInt(b4);
    Some((Pcb(id, interruptType, programCounter, registers, socket, [], []), b5))
  }

  // recv_pcb
  function DecPcb(b: seq<Byte>): Decoded<Pcb> {
    var b1 :- DecOpCode(PCB, b);
    var (context, b2) :- DecContext(b1);
    var (segmentTable, b3) :- DecSegmentTable(b2);
    var (instructions, b4) :- DecInstructions(b3);
    Some((context.(segmentTable := segmentTable, instructions := instructions), b4))
  }

  // wait_cpu_dispatch reads the tail the interrupt type calls for.
  function DecTail(i: Interrupt, b: seq<Byte>): Decoded<Tail> {
    match i
    case INT_IO =>
      var (device, b1) :- DecString(b);
      var (arg, b2) :- DecInt(b1);
      Some((IoTail(device, arg), b2))
    case INT_PAGE_FAULT =>
      var (segment, b1) :- DecInt(b);
      var (page, b2) :- DecInt(b1);
      Some((PfTail(segment, page), b2))
    case _ => Some((Plain, b))
  }

  function DecMessage(b: seq<Byte>): Decoded<Message> {
    var (pcb, b1) :- DecPcb(b);
    var (tail, b2) :- DecTail(pcb.interruptType, b1);
    Some((Message(pcb, tail), b2))
  }

  // ---------- What can be sent ----------

  // Strings are C strings of bytes; lists are counted by an int.
  predicate Sendable(s: string) {
    |s| + 1 < 0x8000_0000 && forall i :: 0 <= i < |s| ==> 0 < s[i] as int < 0x100
  }

  predicate ParameterOk(p: Parameter) {
    p.Text? ==> Sendable(p.text)
  }

  predicate InstructionOk(i: Instruction) {
    |i.parameters| < 0x8000_0000 && forall j :: 0 <= j < |i.parameters| ==> ParameterOk(i.parameters[j])
  }

  predicate PcbOk(p: Pcb) {
    && |p.segmentTable| < 0x8000_0000 && |p.instructions| < 0x8000_0000
    && forall j :: 0 <= j < |p.instructions| ==> InstructionOk(p.instructions[j])
  }

  // The sender picks the tail by the interrupt type too.
  predicate TailOk(i: Interrupt, t: Tail) {
    match i
    case INT_IO => t.IoTail? && Sendable(t.device)
    case INT_PAGE_FAULT => t.PfTail?
    case _ => t.Plain?
  }

  predicate MessageOk(m: Message) {
    PcbOk(m.pcb) && TailOk(m.pcb.interruptType, m.tail)
  }

  // ---------- Round trips, with any bytes behind ----------

  lemma Assoc(a: seq<Byte>, b: seq<Byte>, c: seq<Byte>)
    ensures (a + b) + c == a + (b + c)
  {
  }

  lemma WordRoundTrip(w: Word, rest: seq<Byte>)
    ensures DecWord(EncWord(w) + rest) == Some((w, rest))
  {
    LeRoundTrip(w);
    assert (EncWord(w) + rest)[..4] == EncWord(w) && (EncWord(w) + rest)[4..] == rest;
  }

  lemma IntRoundTrip(x: Int32, rest: seq<Byte>)
    ensures DecInt(EncInt(x) + rest) == Some((x, rest))
  {
    var w: Word := x % 0x1_0000_0000;
    LeRoundTrip(w);
    assert (EncInt(x) + rest)[..4] == EncInt(x) && (EncInt(x) + rest)[4..] == rest;
    assert w == Unsigned(x);
  }

  // Characters before whatever follows are the first characters of the string.
  lemma {:induction false} CharsPrefix(s: string, b: seq<Byte>)
    requires forall i :: 0 <= i < |s| ==> 0 < s[i] as int < 0x100
    ensures CString(EncChars(s) + b) == if CString(b).Some? then Some(s + CString(b).value) else None
    decreases |s|
  {
    if s == [] {
      assert EncChars(s) + b == b;
      if CString(b).Some? { assert s + CString(b).value == CString(b).value; }
    } else {
      var front, last := s[..|s| - 1], s[|s| - 1];
      var more := [EncChar(last)] + b;
      CharsPrefix(front, more);
      assert EncChars(s) + b == EncChars(front) + more;
      assert more[0] == EncChar(last) == last as int && more[0] as char == last && more[1..] == b;
      if CString(b).Some? {
        assert front + ([last] + CString(b).value) == s + CString(b).value;
      }
    }
  }

  lemma StringRoundTrip(s: string, rest: seq<Byte>)
    requires Sendable(s)
    ensures DecString(EncString(s) + rest) == Some((s, rest))
  {
    var body := EncChars(s) + [0];
    var b2 := body + rest;
    var b1 := EncInt(|s| + 1) + b2;
    assert EncString(s) + rest == EncInt(STRING) + b1;
    IntRoundTrip(STRING, b1);
    IntRoundTrip(|s| + 1, b2);
    assert b2[..|s| + 1] == body && b2[|s| + 1..] == rest;
    CharsPrefix(s, [0]);
    assert CString([0]) == Some("");
    assert s + "" == s;
  }

  lemma ParameterRoundTrip(p: Parameter, rest: seq<Byte>)
    requires ParameterOk(p)
    ensures DecParameter(EncParameter(p) + rest) == Some((p, rest))
  {
    match p
    case Text(text) =>
      assert EncParameter(p) + rest == [1] + (EncString(text) + rest);
      StringRoundTrip(text, rest);
    case Number(value) =>
      assert EncParameter(p) + rest == [0] + (EncInt(value) + rest);
      IntRoundTrip(value, rest);
  }

  lemma {:induction false} ManyRoundTrip<T>(enc: T -> seq<Byte>, dec: seq<Byte> -> Decoded<T>, list: seq<T>,
                                            rest: seq<Byte>)
    requires forall i: nat, r: seq<Byte> :: i < |list| ==> dec(enc(list[i]) + r) == Some((list[i], r))
    ensures DecMany(dec, |list|, EncMany(enc, list) + rest) == Some((list, rest))
    decreases |list|
  {
    if list == [] {
      assert EncMany(enc, list) + rest == rest;
    } else {
      var front, last := list[..|list| - 1], list[|list| - 1];
      assert forall i: nat :: i < |front| ==> front[i] == list[i];
      ManyRoundTrip(enc, dec, front, enc(last) + rest);
      assert EncMany(enc, list) + rest == EncMany(enc, front) + (enc(last) + rest);
      assert list == front + [last];
      assert dec(enc(list[|list| - 1]) + rest) == Some((last, rest));
    }
  }

  lemma ListRoundTrip<T>(enc: T -> seq<Byte>, dec: seq<Byte> -> Decoded<T>, list: seq<T>, rest: seq<Byte>)
    requires |list| < 0x8000_0000
    requires forall i: nat, r: seq<Byte> :: i < |list| ==> dec(enc(list[i]) + r) == Some((list[i], r))
    ensures DecList(dec, (EncInt(|list|) + EncMany(enc, list)) + rest) == Some((list, rest))
  {
    var body := EncMany(enc, list) + rest;
    assert (EncInt(|list|) + EncMany(enc, list)) + rest == EncInt(|list|) + body;
    IntRoundTrip(|list|, body);
    ManyRoundTrip(enc, dec, list, rest);
  }

  lemma ParametersRoundTrip(list: seq<Parameter>, rest: seq<Byte>)
    requires |list| < 0x8000_0000 && forall j :: 0 <= j < |list| ==> ParameterOk(list[j])
    ensures DecList(DecParameter, (EncInt(|list|) + EncMany(EncParameter, list)) + rest) == Some((list, rest))
  {
    forall j: nat, r: seq<Byte> | j < |list|
      ensures DecParameter(EncParameter(list[j]) + r) == Some((list[j], r))
    {
      ParameterRoundTrip(list[j], r);
    }
    ListRoundTrip(EncParameter, DecParameter, list, rest);
  }

  lemma InstructionRoundTrip(i: Instruction, rest: seq<Byte>)
    requires InstructionOk(i)
    ensures DecInstruction(EncInstruction(i) + rest) == Some((i, rest))
  {
    var code := OperationCode(i.operation);
    var list := EncInt(|i.parameters|) + EncMany(EncParameter, i.parameters);
    assert OperationOf(code) == Some(i.operation);
    assert DecInt(EncInstruction(i) + rest) == Some((code, list + rest)) by {
      Assoc(EncInt(code), list, rest);
      IntRoundTrip(code, list + rest);
    }
    assert DecList(DecParameter, list + rest) == Some((i.parameters, rest)) by {
      ParametersRoundTrip(i.parameters, rest);
    }
  }

  lemma InstructionsRoundTrip(instructions: seq<Instruction>, rest: seq<Byte>)
    requires |instructions| < 0x8000_0000 && forall j :: 0 <= j < |instructions| ==> InstructionOk(instructions[j])
    ensures DecInstructions(EncInstructions(instructions) + rest) == Some((instructions, rest))
  {
    var list := EncInt(|instructions|) + EncMany(EncInstruction, instructions);
    Assoc(EncInt(INSTRUCTIONS), list, rest);
    IntRoundTrip(INSTRUCTIONS, list + rest);
    forall j: nat, r: seq<Byte> | j < |instructions|
      ensures DecInstruction(EncInstruction(instructions[j]) + r) == Some((instructions[j], r))
    {
      InstructionRoundTrip(instructions[j], r);
    }
    ListRoundTrip(EncInstruction, DecInstruction, instructions, rest);
  }

  lemma SegmentRoundTrip(s: SegmentEntry, rest: seq<Byte>)
    ensures DecSegment(EncSegment(s) + rest) == Some((s, rest))
  {
    assert EncSegment(s) + rest == EncInt(s.size) + (EncInt(s.pageTableIndex) + rest);
    IntRoundTrip(s.size, EncInt(s.pageTableIndex) + rest);
    IntRoundTrip(s.pageTableIndex, rest);
  }

  lemma SegmentTableRoundTrip(segments: seq<SegmentEntry>, rest: seq<Byte>)
    requires |segments| < 0x8000_0000
    ensures DecSegmentTable(EncSegmentTable(segments) + rest) == Some((segments, rest))
  {
    forall j: nat, r: seq<Byte> | j < |segments|
      ensures DecSegment(EncSegment(segments[j]) + r) == Some((segments[j], r))
    {
      SegmentRoundTrip(segments[j], r);
    }
    ListRoundTrip(EncSegment, DecSegment, segments, rest);
  }

  lemma RegistersRoundTrip(r: RegisterFile, rest: seq<Byte>)
    ensures DecRegisters(EncRegisters(r) + rest) == Some((r, rest))
  {
    var b4 := EncWord(r[3]) + rest;
    var b3 := EncWord(r[2]) + b4;
    var b2 := EncWord(r[1]) + b3;
    assert EncRegisters(r) + rest == EncWord(r[0]) + b2;
    WordRoundTrip(r[0], b2);
    WordRoundTrip(r[1], b3);
    WordRoundTrip(r[2], b4);
    WordRoundTrip(r[3], rest);
    assert [r[0], r[1], r[2], r[3]] == r;
  }

  lemma ContextRoundTrip(p: Pcb, rest: seq<Byte>)
    ensures DecContext(EncContext(p) + rest) == Some((p.(segmentTable := [], instructions := []), rest))
  {
    var e5 := EncInt(p.socketConsola);
    var e4 := EncRegisters(p.registers) + e5;
    var e3 := EncWord(p.programCounter) + e4;
    var e2 := EncInt(InterruptCode(p.interruptType)) + e3;
    Assoc(EncInt(p.id), e2, rest);
    Assoc(EncInt(InterruptCode(p.interruptType)), e3, rest);
    Assoc(EncWord(p.programCounter), e4, rest);
    Assoc(EncRegisters(p.registers), e5, rest);
    IntRoundTrip(p.id, e2 + rest);
    IntRoundTrip(InterruptCode(p.interruptType), e3 + rest);
    WordRoundTrip(p.programCounter, e4 + rest);
    RegistersRoundTrip(p.registers, e5 + rest);
    IntRoundTrip(p.socketConsola, rest);
  }

  // A PCB decodes to itself and leaves exactly the bytes behind it.
  lemma PcbRoundTrip(p: Pcb, rest: seq<Byte>)
    requires PcbOk(p)
    ensures DecPcb(EncPcb(p) + rest) == Some((p, rest))
  {
    var e3 := EncInstructions(p.instructions);
    var e2 := EncSegmentTable(p.segmentTable) + e3;
    var e1 := EncContext(p) + e2;
    Assoc(EncInt(PCB), e1, rest);
    Assoc(EncContext(p), e2, rest);
    Assoc(EncSegmentTable(p.segmentTable), e3, rest);
    IntRoundTrip(PCB, e1 + rest);
    ContextRoundTrip(p, e2 + rest);
    SegmentTableRoundTrip(p.segmentTable, e3 + rest);
    InstructionsRoundTrip(p.instructions, rest);
  }

  lemma TailRoundTrip(i: Interrupt, t: Tail, rest: seq<Byte>)
    requires TailOk(i, t)
    ensures DecTail(i, EncTail(t) + rest) == Some((t, rest))
  {
    match t
    case Plain =>
      assert EncTail(t) + rest == rest;
    case IoTail(device, arg) =>
      Assoc(EncString(device), EncInt(arg), rest);
      StringRoundTrip(device, EncInt(arg) + rest);
      IntRoundTrip(arg, rest);
    case PfTail(segment, page) =>
      Assoc(EncInt(segment), EncInt(page), rest);
      IntRoundTrip(segment, EncInt(page) + rest);
      IntRoundTrip(page, rest);
  }

  lemma MessageRoundTrip(m: Message, rest: seq<Byte>)
    requires MessageOk(m)
    ensures DecMessage(EncMessage(m) + rest) == Some((m, rest))
  {
    Assoc(EncPcb(m.pcb), EncTail(m.tail), rest);
    PcbRoundTrip(m.pcb, EncTail(m.tail) + rest);
    TailRoundTrip(m.pcb.interruptType, m.tail, rest);
  }

  // Any sequence of messages from the CPU, put one behind the other with nothing between them,
  // decodes to itself.
  lemma MessagesRoundTrip(messages: seq<Message>, rest: seq<Byte>)
    requires forall i :: 0 <= i < |messages| ==> MessageOk(messages[i])
    ensures DecMany(DecMessage, |messages|, EncMany(EncMessage, messages) + rest) == Some((messages, rest))
  {
    forall i: nat, r: seq<Byte> | i < |messages|
      ensures DecMessage(EncMessage(messages[i]) + r) == Some((messages[i], r))
    {
      MessageRoundTrip(messages[i], r);
    }
    ManyRoundTrip(EncMessage, DecMessage, messages, rest);
  }

  // So no message is the beginning of another: the receiver always knows where one ends.
  lemma MessagesPrefixFree(a: Message, b: Message, restA: seq<Byte>, restB: seq<Byte>)
    requires MessageOk(a) && MessageOk(b) && EncMessage(a) + restA == EncMessage(b) + restB
    ensures a == b && restA == restB
  {
    MessageRoundTrip(a, restA);
    MessageRoundTrip(b, restB);
  }

  // A PCB sent with the wrong tail is not recovered: the tail read is the one the interrupt type names.
  lemma TailByInterrupt(m: Message, rest: seq<Byte>)
    requires PcbOk(m.pcb) && (m.tail.IoTail? ==> Sendable(m.tail.device))
    ensures DecMessage(EncMessage(m) + rest) == Some((m, rest)) <==> MessageOk(m)
  {
    if MessageOk(m) {
      MessageRoundTrip(m, rest);
    } else {
      assert EncMessage(m) + rest == EncPcb(m.pcb) + (EncTail(m.tail) + rest);
      PcbRoundTrip(m.pcb, EncTail(m.tail) + rest);
    }
  }
}
