// One program from its text to its end: parsed, printed, and run by itself.
module Samples {
  import opened Words
  import opened Programs
  import opened Alone
  import opened ProgramText
  import opened TextEnds

  const SET_BX := Instruction(SET, [Number(1), Number(2)])
  const ADD_AX_BX := Instruction(ADD, [Number(0), Number(1)])
  const STORE := Instruction(MOV_OUT, [Number(4), Number(0)])
  const LOAD := Instruction(MOV_IN, [Number(3), Number(4)])
  const DISK := Instruction(IO, [Text("DISCO"), Number(3)])
  const END := Instruction(EXIT, [])

  // ---------- Text ----------

  // A parameter behind blanks.
  lemma Read(acc: seq<Parameter>, blanks: string, word: string, t: string, p: Parameter)
    requires Blanks(blanks) && blanks != "" && blanks[0] != '\n' && Clean(word) && |word| <= 11 && Ends(t)
    requires p == ParameterOf(word)
    ensures Parameters(acc, blanks + (word + t)) == Parameters(acc + [p], t)
  {
    NextWordReads(blanks, word, t);
    var s := blanks + (word + t);
    assert s[0] == blanks[0] && Peeked(s) == s;
  }

  lemma NewlineEnds(acc: seq<Parameter>, t: string)
    ensures Parameters(acc, "\n" + t) == Some((acc, "\n" + t))
  {
    assert ("\n" + t)[0] == '\n' && ("\n" + t)[1..] == t && ['\n'] + t == "\n" + t;
  }

  lemma WordsMean()
    ensures ParameterOf("AX") == Number(0) && ParameterOf("BX") == Number(1) && ParameterOf("DX") == Number(3)
    ensures ParameterOf("2") == Number(2) && ParameterOf("4") == Number(4) && ParameterOf("3") == Number(3)
    ensures ParameterOf("DISCO") == Text("DISCO")
  {
    RegisterNames("AX");
    RegisterNames("BX");
    RegisterNames("DX");
    RegisterNames("2");
    RegisterNames("3");
    RegisterNames("4");
    RegisterNames("DISCO");
    assert Value("") == 0 && "2"[..0] == "" && "3"[..0] == "" && "4"[..0] == "";
    assert !Digit("DISCO"[0]);
  }

  // A line of two parameters, with these blanks in it, and a newline behind it.
  lemma LineRead(acc: seq<Instruction>, lead: string, o: Operation, b1: string, w1: string, b2: string, w2: string,
                 rest: string, t: string, i: Instruction)
    requires lead == "" || lead == "\n"
    requires Blanks(b1) && b1 != "" && b1[0] != '\n' && Clean(w1) && |w1| <= 11
    requires Blanks(b2) && b2 != "" && b2[0] != '\n' && Clean(w2) && |w2| <= 11
    requires rest == b1 + (w1 + (b2 + (w2 + ("\n" + t))))
    requires i == Instruction(o, [ParameterOf(w1), ParameterOf(w2)])
    ensures Parse(acc, lead + (OperationName(o) + rest)) == Parse(acc + [i], "\n" + t)
  {
    var t1 := "\n" + t;
    var t2 := b2 + (w2 + t1);
    Read([], b1, w1, t2, ParameterOf(w1));
    assert [] + [ParameterOf(w1)] == [ParameterOf(w1)];
    Read([ParameterOf(w1)], b2, w2, t1, ParameterOf(w2));
    assert [ParameterOf(w1)] + [ParameterOf(w2)] == i.parameters;
    NewlineEnds(i.parameters, t);
    OperatorRead(acc, lead, o, rest);
  }

  lemma OperatorRead(acc: seq<Instruction>, lead: string, o: Operation, rest: string)
    requires (lead == "" || lead == "\n") && Ends(rest)
    ensures Parse(acc, lead + (OperationName(o) + rest)) ==
            var r := Parameters([], rest);
            if r.None? then None else Parse(acc + [Instruction(o, r.value.0)], r.value.1)
  {
    ShownName(o);
    NextWordReads(lead, OperationName(o), rest);
    var text := lead + (OperationName(o) + rest);
    assert text[0] == if lead == "" then OperationName(o)[0] else '\n';
  }

  const PROGRAM := [SET_BX, ADD_AX_BX, STORE, LOAD, DISK, END]

  lemma EndRead(acc: seq<Instruction>)
    ensures Parse(acc, "\n" + "EXIT") == Some(acc + [END])
  {
    NothingLeft([]);
    assert OperationName(EXIT) + "" == "EXIT";
    OperatorRead(acc, "\n", EXIT, "");
    EndOfText(acc + [END]);
  }

  // The text `line` is this operation with two parameters, a blank before each.
  predicate IsLine(line: string, o: Operation, w1: string, w2: string) {
    line == OperationName(o) + (" " + (w1 + (" " + w2)))
  }

  lemma Lines()
    ensures IsLine("ADD AX BX", ADD, "AX", "BX") && IsLine("MOV_OUT 4 AX", MOV_OUT, "4", "AX")
    ensures IsLine("MOV_IN DX 4", MOV_IN, "DX", "4") && IsLine("I/O DISCO 3", IO, "DISCO", "3")
    ensures Clean("AX") && Clean("BX") && Clean("DX") && Clean("2") && Clean("3") && Clean("4") && Clean("DISCO")
  {
  }

  lemma Glue(name: string, w1: string, w2: string, t: string)
    ensures (name + (" " + (w1 + (" " + w2)))) + t == name + (" " + (w1 + (" " + (w2 + t))))
  {
  }

  lemma LineThen(acc: seq<Instruction>, line: string, o: Operation, w1: string, w2: string, i: Instruction, t: string,
                 list: seq<Instruction>)
    requires IsLine(line, o, w1, w2) && Clean(w1) && |w1| <= 11 && Clean(w2) && |w2| <= 11
    requires i == Instruction(o, [ParameterOf(w1), ParameterOf(w2)])
    requires Parse(acc + [i], "\n" + t) == Some(acc + [i] + list)
    ensures Parse(acc, "\n" + (line + ("\n" + t))) == Some(acc + ([i] + list))
  {
    var rest := " " + (w1 + (" " + (w2 + ("\n" + t))));
    Glue(OperationName(o), w1, w2, "\n" + t);
    LineRead(acc, "\n", o, " ", w1, " ", w2, rest, t, i);
    assert acc + [i] + list == acc + ([i] + list);
  }

  lemma IoRead(acc: seq<Instruction>)
    ensures Parse(acc, "\n" + ("I/O DISCO 3" + ("\n" + "EXIT"))) == Some(acc + ([DISK] + [END]))
  {
    WordsMean();
    Lines();
    EndRead(acc + [DISK]);
    LineThen(acc, "I/O DISCO 3", IO, "DISCO", "3", DISK, "EXIT", [END]);
  }

  lemma LoadRead(acc: seq<Instruction>, t: string, list: seq<Instruction>)
    requires Parse(acc + [LOAD], "\n" + t) == Some(acc + [LOAD] + list)
    ensures Parse(acc, "\n" + ("MOV_IN DX 4" + ("\n" + t))) == Some(acc + ([LOAD] + list))
  {
    WordsMean();
    Lines();
    LineThen(acc, "MOV_IN DX 4", MOV_IN, "DX", "4", LOAD, t, list);
  }

  lemma StoreRead(acc: seq<Instruction>, t: string, list: seq<Instruction>)
    requires Parse(acc + [STORE], "\n" + t) == Some(acc + [STORE] + list)
    ensures Parse(acc, "\n" + ("MOV_OUT 4 AX" + ("\n" + t))) == Some(acc + ([STORE] + list))
  {
    WordsMean();
    Lines();
    LineThen(acc, "MOV_OUT 4 AX", MOV_OUT, "4", "AX", STORE, t, list);
  }

  lemma AddRead(acc: seq<Instruction>, t: string, list: seq<Instruction>)
    requires Parse(acc + [ADD_AX_BX], "\n" + t) == Some(acc + [ADD_AX_BX] + list)
    ensures Parse(acc, "\n" + ("ADD AX BX" + ("\n" + t))) == Some(acc + ([ADD_AX_BX] + list))
  {
    WordsMean();
    Lines();
    LineThen(acc, "ADD AX BX", ADD, "AX", "BX", ADD_AX_BX, t, list);
  }

  // With a tab and two blanks in the line.
  lemma SetRead(t: string, list: seq<Instruction>)
    requires Parse([SET_BX], "\n" + t) == Some([SET_BX] + list)
    ensures Parse([], "SET\tBX  2" + ("\n" + t)) == Some([SET_BX] + list)
  {
    WordsMean();
    var rest := "\t" + ("BX" + ("  " + ("2" + ("\n" + t))));
    assert "SET\tBX  2" + ("\n" + t) == "" + (OperationName(SET) + rest);
    LineRead([], "", SET, "\t", "BX", "  ", "2", rest, t, SET_BX);
    assert [] + [SET_BX] == [SET_BX];
  }

  // The text from its third line on, and from its second.
  lemma TailRead(acc: seq<Instruction>, store: string)
    requires store == "MOV_OUT 4 AX" + ("\n" + ("MOV_IN DX 4" + ("\n" + ("I/O DISCO 3" + ("\n" + "EXIT")))))
    ensures Parse(acc, "\n" + store) == Some(acc + ([STORE] + ([LOAD] + ([DISK] + [END]))))
  {
    var io := "I/O DISCO 3" + ("\n" + "EXIT");
    IoRead(acc + [STORE] + [LOAD]);
    LoadRead(acc + [STORE], io, [DISK] + [END]);
    StoreRead(acc, "MOV_IN DX 4" + ("\n" + io), [LOAD] + ([DISK] + [END]));
  }

  lemma TextRead(store: string)
    requires store == "MOV_OUT 4 AX" + ("\n" + ("MOV_IN DX 4" + ("\n" + ("I/O DISCO 3" + ("\n" + "EXIT")))))
    ensures Parse([], "SET\tBX  2" + ("\n" + ("ADD AX BX" + ("\n" + store)))) == Some(PROGRAM)
  {
    var list := [STORE] + ([LOAD] + ([DISK] + [END]));
    TailRead([SET_BX] + [ADD_AX_BX], store);
    AddRead([SET_BX], store, list);
    SetRead("ADD AX BX" + ("\n" + store), [ADD_AX_BX] + list);
    assert [SET_BX] + ([ADD_AX_BX] + list) == PROGRAM;
  }

  // ---------- What is printed ----------

  lemma Shown(value: Int32, i: Instruction)
    requires 0 <= value < 10 && |i.parameters| == 2 && i.parameters[1] == Number(value)
    ensures ShowInstruction(i) ==
            OperationName(i.operation) + (" " + (ShowParameter(i.parameters[0]) + (" " + ([DigitOf(value)] + ""))))
  {
    assert ShowParameters(i.parameters, 2) == "";
    assert ShowParameters(i.parameters, 1) == " " + ([DigitOf(value)] + "");
  }

  // A register is printed as its number, a negative number with a minus sign; one blank before each parameter
  // and one newline between instructions.
  lemma Printed()
    ensures Print([SET_BX, DISK, END]) == "SET 1 2" + ("\n" + ("I/O DISCO 3" + ("\n" + "EXIT")))
    ensures ShowInt(-12) == "-12"
  {
    var list := [SET_BX, DISK, END];
    Shown(2, SET_BX);
    Shown(3, DISK);
    assert ShowParameter(Number(1)) == "1" && [DigitOf(2)] == "2" && [DigitOf(3)] == "3";
    assert ShowInstruction(SET_BX) == "SET 1 2" && ShowInstruction(DISK) == "I/O DISCO 3";
    assert ShowInstruction(END) == "EXIT" + "" == "EXIT";
    assert Print(list, 3) == "" && Print(list, 2) == "EXIT" + "" == "EXIT";
    assert Print(list, 1) == "I/O DISCO 3" + ("\n" + "EXIT");
    assert ShowNat(1) == "1" && ShowNat(12) == ShowNat(1) + [DigitOf(2)] == "12";
  }

  // ---------- What it does ----------

  function At(registers: RegisterFile, pc: nat, status: Status, cells: map<nat, Byte>): Private {
    Private(Core(registers, pc, status), cells)
  }

  lemma SetRan()
    ensures Step(PROGRAM, [8], 64, At([0, 0, 0, 0], 0, Running, map[]), Ran(0))
         == Some(At([0, 2, 0, 0], 1, Running, map[]))
  {
    assert [0, 0, 0, 0][1 := 2] == [0, 2, 0, 0];
  }

  lemma AddRan()
    ensures Step(PROGRAM, [8], 64, At([0, 2, 0, 0], 1, Running, map[]), Ran(0))
         == Some(At([2, 2, 0, 0], 2, Running, map[]))
  {
    assert Plus(0, 2) == 2 && [0, 2, 0, 0][0 := 2] == [2, 2, 0, 0];
  }

  const CELLS: map<nat, Byte> := map[4 := 2, 5 := 0, 6 := 0, 7 := 0]

  lemma StoreRan()
    ensures Step(PROGRAM, [8], 64, At([2, 2, 0, 0], 2, Running, map[]), Ran(0))
         == Some(At([2, 2, 0, 0], 3, Running, CELLS))
  {
    assert Le32(2) == [2, 0, 0, 0] && Store(map[], 4, 2) == CELLS;
  }

  lemma LoadRan()
    ensures Step(PROGRAM, [8], 64, At([2, 2, 0, 0], 3, Running, CELLS), Ran(0))
         == Some(At([2, 2, 0, 2], 4, Running, CELLS))
  {
    assert Load(CELLS, 4, 0) == 2;
    assert [2, 2, 0, 0][3 := 2] == [2, 2, 0, 2];
  }

  lemma DiskRan()
    ensures Step(PROGRAM, [8], 64, At([2, 2, 0, 2], 4, Running, CELLS), Ran(0))
         == Some(At([2, 2, 0, 2], 5, Waiting("DISCO", 3), CELLS))
    ensures Step(PROGRAM, [8], 64, At([2, 2, 0, 2], 5, Waiting("DISCO", 3), CELLS), Resumed(9))
         == Some(At([2, 2, 0, 2], 5, Running, CELLS))
  {
    assert "DISCO"[0] != "TECLADO"[0];
  }

  lemma EndRan()
    ensures Step(PROGRAM, [8], 64, At([2, 2, 0, 2], 5, Running, CELLS), Ran(0))
         == Some(At([2, 2, 0, 2], 5, Exited, CELLS))
  {
  }

  lemma Then(before: seq<Event>, p: Private, e: Event, p': Private)
    requires Run(PROGRAM, [8], 64, before) == Some(p) && Step(PROGRAM, [8], 64, p, e) == Some(p')
    ensures Run(PROGRAM, [8], 64, before + [e]) == Some(p')
  {
    assert (before + [e])[..|before|] == before;
  }

  // Run by itself with one segment of eight bytes: BX = 2, AX = 0 + 2, stored at 4 and loaded into DX; then it
  // waits for DISCO, goes on and ends.
  lemma ProgramRan()
    ensures Run(PROGRAM, [8], 64, [] + [Ran(0)] + [Ran(0)] + [Ran(0)] + [Ran(0)] + [Ran(0)] + [Resumed(9)] + [Ran(0)])
         == Some(At([2, 2, 0, 2], 5, Exited, CELLS))
  {
    var e1 := [] + [Ran(0)];
    var e3 := e1 + [Ran(0)] + [Ran(0)];
    var e5 := e3 + [Ran(0)] + [Ran(0)];
    SetRan();
    Then([], At([0, 0, 0, 0], 0, Running, map[]), Ran(0), At([0, 2, 0, 0], 1, Running, map[]));
    AddRan();
    Then(e1, At([0, 2, 0, 0], 1, Running, map[]), Ran(0), At([2, 2, 0, 0], 2, Running, map[]));
    StoreRan();
    Then(e1 + [Ran(0)], At([2, 2, 0, 0], 2, Running, map[]), Ran(0), At([2, 2, 0, 0], 3, Running, CELLS));
    LoadRan();
    Then(e3, At([2, 2, 0, 0], 3, Running, CELLS), Ran(0), At([2, 2, 0, 2], 4, Running, CELLS));
    DiskRan();
    Then(e3 + [Ran(0)], At([2, 2, 0, 2], 4, Running, CELLS), Ran(0), At([2, 2, 0, 2], 5, Waiting("DISCO", 3), CELLS));
    Then(e5, At([2, 2, 0, 2], 5, Waiting("DISCO", 3), CELLS), Resumed(9), At([2, 2, 0, 2], 5, Running, CELLS));
    EndRan();
    Then(e5 + [Resumed(9)], At([2, 2, 0, 2], 5, Running, CELLS), Ran(0), At([2, 2, 0, 2], 5, Exited, CELLS));
  }
}
