// What blanks and newlines behind an instruction do to a program text, for texts of any content.
module TextEnds {
  import opened Words
  import opened Programs
  import opened ProgramText

  // No EOF characters, and the last character is part of a word.
  predicate Plain(u: string) {
    u != "" && EOF !in u && !Blank(u[|u| - 1])
  }

  // What is left of such a text after some of its words.
  predicate Remainder(u: string) {
    u == "" || Plain(u)
  }

  // ---------- A text and what follows it ----------

  // A word read from u is the same word when s follows, with s behind what is left.
  function Behind(r: Option<(string, string)>, s: string): Option<(string, string)> {
    if r.None? then None else Some((r.value.0, r.value.1 + s))
  }

  lemma {:induction false} TakeWordOver(acc: string, u: string, s: string)
    requires Remainder(u) && Ends(s)
    ensures TakeWord(acc, u + s) == Behind(TakeWord(acc, u), s)
    ensures TakeWord(acc, u).Some? ==> Remainder(TakeWord(acc, u).value.1)
    decreases |u|
  {
    if u == "" {
      assert u + s == s;
      if s != "" { assert [s[0]] + s[1..] == s; }
    } else {
      assert (u + s)[1..] == u[1..] + s;
      if Stop(u[0]) {
        assert [u[0]] + u[1..] == u && [u[0]] + (u[1..] + s) == u + s;
      } else if |acc| <= 10 {
        TakeWordOver(acc + [u[0]], u[1..], s);
      }
    }
  }

  lemma {:induction false} SkipBlanksOver(u: string, s: string)
    requires Plain(u)
    ensures Plain(SkipBlanks(u)) && SkipBlanks(u + s) == SkipBlanks(u) + s && !Blank(SkipBlanks(u)[0])
    decreases |u|
  {
    if Blank(u[0]) {
      assert (u + s)[1..] == u[1..] + s;
      SkipBlanksOver(u[1..], s);
    }
  }

  lemma NextWordOver(u: string, s: string)
    requires Plain(u) && Ends(s)
    ensures NextWord(u + s) == Behind(NextWord(u), s)
    ensures NextWord(u).Some? ==> Remainder(NextWord(u).value.1)
  {
    SkipBlanksOver(u, s);
    var v := SkipBlanks(u);
    assert (v + s)[1..] == v[1..] + s;
    TakeWordOver([v[0]], v[1..], s);
  }

  // Parameters that run to the end of the text go on into what follows it.
  function ParametersOn(r: Option<(seq<Parameter>, string)>, s: string): Option<(seq<Parameter>, string)> {
    if r.None? then None
    else if r.value.1 == "" then Parameters(r.value.0, s)
    else Some((r.value.0, r.value.1 + s))
  }

  lemma {:induction false} ParametersOver(acc: seq<Parameter>, u: string, s: string)
    requires Remainder(u) && Ends(s)
    ensures Parameters(acc, u + s) == ParametersOn(Parameters(acc, u), s)
    ensures Parameters(acc, u).Some? ==> Remainder(Parameters(acc, u).value.1)
    decreases |u|
  {
    if u == "" {
      assert u + s == s;
    } else {
      assert Peeked(u) == u && Peeked(u + s) == u + s;
      if u[0] != '\n' {
        NextWordOver(u, s);
        if NextWord(u).Some? {
          var (word, rest) := NextWord(u).value;
          ParametersOver(acc + [ParameterOf(word)], rest, s);
        }
      }
    }
  }

  // The parser in the middle of the last instruction of `list`, with s to read.
  function Resume(list: seq<Instruction>, s: string): Option<seq<Instruction>>
    requires list != []
  {
    var last := list[|list| - 1];
    var (parameters, rest) :- Parameters(last.parameters, s);
    Parse(list[..|list| - 1] + [Instruction(last.operation, parameters)], rest)
  }

  // A rejected text stays rejected whatever follows; behind an accepted one the parser is still
  // reading parameters of its last instruction.
  lemma {:induction false} ParseContinues(acc: seq<Instruction>, u: string, s: string)
    requires Plain(u) && Ends(s)
    ensures Parse(acc, u).None? ==> Parse(acc, u + s).None?
    ensures Parse(acc, u).Some? ==> |Parse(acc, u).value| > |acc| && Parse(acc, u + s) == Resume(Parse(acc, u).value, s)
    decreases |u|
  {
    NextWordOver(u, s);
    if NextWord(u).Some? && OperationNamed(NextWord(u).value.0).Some? {
      var (word, t1) := NextWord(u).value;
      ParametersOver([], t1, s);
      if Parameters([], t1).Some? {
        var (parameters, t2) := Parameters([], t1).value;
        var acc' := acc + [Instruction(OperationNamed(word).value, parameters)];
        if t2 == "" {
          EndOfText(acc');
          assert acc'[..|acc'| - 1] == acc;
        } else {
          ParseContinues(acc', t2, s);
        }
      }
    }
  }

  // ---------- Blanks at the end of the file ----------

  const JUNK := Text([EOF])

  // A last parameter made of the end-of-file character.
  function WithJunk(list: seq<Instruction>): seq<Instruction>
    requires list != []
  {
    var last := list[|list| - 1];
    list[..|list| - 1] + [Instruction(last.operation, last.parameters + [JUNK])]
  }

  lemma {:induction false} NothingButBlanks(acc: seq<Instruction>, blanks: string)
    requires Blanks(blanks) && blanks != ""
    ensures NextWord(blanks) == Some(([EOF], "")) && Parse(acc, blanks).None?
  {
    SkipAll(blanks, "");
    assert blanks + "" == blanks;
    assert forall j :: 0 <= j < 6 ==> OPERATIONS[j].0[0] != EOF;
  }

  lemma JunkParameter()
    ensures ParameterOf([EOF]) == JUNK == Text([255 as char])
  {
    assert forall i :: 0 <= i < 4 ==> REGISTERS[i][0] != EOF;
    assert !Digit([EOF][0]);
  }

  lemma ResumeBlanks(list: seq<Instruction>, blanks: string)
    requires list != [] && Blanks(blanks)
    ensures Resume(list, blanks) ==
            if blanks == "" then Some(list) else if blanks[0] == '\n' then None else Some(WithJunk(list))
  {
    var last := list[|list| - 1];
    var again := list[..|list| - 1] + [Instruction(last.operation, last.parameters)];
    assert again == list;
    if blanks == "" {
      EndOfText(list);
    } else {
      assert Peeked(blanks) == blanks;
      NothingButBlanks(list, blanks);
      JunkParameter();
      EndOfText(WithJunk(list));
      var more := last.parameters + [JUNK];
      assert Parameters(more, "") == Some((more, ""));
    }
  }

  // A file that is u and then blanks, with u accepted, is read as u exactly when there are no blanks.
  // It is rejected exactly when the first of them is a newline; with a space or a tab first it is
  // accepted, with a junk parameter on its last instruction.
  lemma BlanksAtEnd(u: string, blanks: string)
    requires Plain(u) && Blanks(blanks) && Parse([], u).Some?
    ensures Parse([], u).value != []
    ensures Parse([], u + blanks) == Parse([], u) <==> blanks == ""
    ensures Parse([], u + blanks).None? <==> blanks != "" && blanks[0] == '\n'
    ensures blanks != "" && blanks[0] != '\n' ==> Parse([], u + blanks) == Some(WithJunk(Parse([], u).value))
  {
    ParseContinues([], u, blanks);
    var list := Parse([], u).value;
    ResumeBlanks(list, blanks);
    JunkShows(list);
  }

  lemma JunkShows(list: seq<Instruction>)
    requires list != []
    ensures WithJunk(list) != list
  {
    var last := list[|list| - 1];
    assert |last.parameters + [JUNK]| != |last.parameters|;
    assert WithJunk(list)[|list| - 1] == Instruction(last.operation, last.parameters + [JUNK]);
  }

  // In particular no file that ends in a newline is read as the text before its last blanks: it is
  // rejected, or accepted with a junk parameter.
  lemma FinalNewline(u: string, blanks: string)
    requires Plain(u) && Blanks(blanks) && blanks != "" && blanks[|blanks| - 1] == '\n'
    ensures Parse([], u).None? ==> Parse([], u + blanks).None?
    ensures Parse([], u).Some? ==> Parse([], u + blanks) != Parse([], u)
  {
    ParseContinues([], u, blanks);
    if Parse([], u).Some? { BlanksAtEnd(u, blanks); }
  }

  // A file of blanks alone is the empty program exactly when it is empty.
  lemma BlanksAlone(blanks: string)
    requires Blanks(blanks)
    ensures Parse([], blanks) == (if blanks == "" then Some([]) else None)
  {
    if blanks == "" { EndOfText([]); } else { NothingButBlanks([], blanks); }
  }

  // "EXIT" and a newline is rejected; with a blank between them it is accepted, with a parameter.
  lemma ExitAndNewline()
    ensures Parse([], "EXIT") == Some([Instruction(EXIT, [])])
    ensures Parse([], "EXIT\n").None?
    ensures Parse([], "EXIT \n") == Some([Instruction(EXIT, [JUNK])])
  {
    var exit := Instruction(EXIT, []);
    PrintThenParse([exit]);
    assert ShowInstruction(exit) == "EXIT" + "" == "EXIT";
    assert Print([exit]) == "EXIT" + "" == "EXIT";
    BlanksAtEnd("EXIT", "\n");
    BlanksAtEnd("EXIT", " \n");
    assert "EXIT" + "\n" == "EXIT\n" && "EXIT" + " \n" == "EXIT \n";
    assert exit.parameters + [JUNK] == [JUNK];
    assert WithJunk([exit]) == [exit][..0] + [Instruction(EXIT, [JUNK])] == [Instruction(EXIT, [JUNK])];
  }

  // ---------- Blanks between two lines ----------

  lemma NamesAreText(o: Operation)
    ensures ParameterOf(OperationName(o)) == Text(OperationName(o))
  {
    var word := OperationName(o);
    assert !Digit(word[0]);
    assert forall i :: 0 <= i < 4 ==> REGISTERS[i] != word by {
      assert forall i :: 0 <= i < 4 ==> |REGISTERS[i]| == 2;
    }
  }

  // What follows the last word of the accepted text u: blanks, an operator, and anything.
  function NextLine(blanks: string, operation: Operation, t: string): string {
    blanks + (OperationName(operation) + t)
  }

  // A newline directly behind the line: the operator starts the next instruction.
  lemma NewlineSeparates(list: seq<Instruction>, blanks: string, operation: Operation, t: string)
    requires list != [] && Blanks(blanks) && blanks != "" && blanks[0] == '\n' && Ends(t)
    ensures Resume(list, NextLine(blanks, operation, t)) == Parse(list, OperationName(operation) + t)
  {
    var word, s, last := OperationName(operation), NextLine(blanks, operation, t), list[|list| - 1];
    ShownName(operation);
    NextWordReads(blanks, word, t);
    NextWordReads("", word, t);
    assert "" + (word + t) == word + t;
    assert s[0] == '\n' && Peeked(s) == s;
    assert list[..|list| - 1] + [Instruction(last.operation, last.parameters)] == list;
  }

  // A space or a tab behind it: the operator becomes one more parameter, however many newlines follow.
  lemma BlankSwallows(list: seq<Instruction>, blanks: string, operation: Operation, t: string)
    requires list != [] && Blanks(blanks) && blanks != "" && blanks[0] != '\n' && Ends(t)
    ensures var last := list[|list| - 1];
            Resume(list, NextLine(blanks, operation, t)) ==
            Resume(list[..|list| - 1]
                   + [Instruction(last.operation, last.parameters + [Text(OperationName(operation))])], t)
  {
    var word, s, last := OperationName(operation), NextLine(blanks, operation, t), list[|list| - 1];
    ShownName(operation);
    NextWordReads(blanks, word, t);
    NamesAreText(operation);
    assert s[0] == blanks[0] && Peeked(s) == s;
    var swallowed := list[..|list| - 1] + [Instruction(last.operation, last.parameters + [Text(word)])];
    assert swallowed[..|swallowed| - 1] == list[..|list| - 1];
  }

  lemma {:induction false} ParametersKeep(acc: seq<Parameter>, t: string)
    ensures Parameters(acc, t).Some? ==> acc <= Parameters(acc, t).value.0
    decreases |t|
  {
    if GetC(t).0 != '\n' {
      var t1 := Peeked(t);
      if GetC(t1).0 != EOF && NextWord(t1).Some? {
        ParametersKeep(acc + [ParameterOf(NextWord(t1).value.0)], NextWord(t1).value.1);
      }
    }
  }

  lemma {:induction false} ParseKeeps(acc: seq<Instruction>, t: string)
    ensures Parse(acc, t).Some? ==> acc <= Parse(acc, t).value
    decreases |t|
  {
    if GetC(t).0 != EOF && NextWord(t).Some? && OperationNamed(NextWord(t).value.0).Some? {
      var (word, t1) := NextWord(t).value;
      if Parameters([], t1).Some? {
        var (parameters, t2) := Parameters([], t1).value;
        ParseKeeps(acc + [Instruction(OperationNamed(word).value, parameters)], t2);
      }
    }
  }

  // Where the parser stands in the middle of an instruction it has more parameters in the end.
  lemma ResumeGrows(list: seq<Instruction>, more: Parameter, t: string)
    requires list != []
    ensures var last := list[|list| - 1];
            var grown := list[..|list| - 1] + [Instruction(last.operation, last.parameters + [more])];
            Resume(grown, t).Some? ==> !(list <= Resume(grown, t).value)
  {
    var last := list[|list| - 1];
    var grown := list[..|list| - 1] + [Instruction(last.operation, last.parameters + [more])];
    if Resume(grown, t).Some? {
      ParametersKeep(last.parameters + [more], t);
      var (parameters, rest) := Parameters(last.parameters + [more], t).value;
      var acc := list[..|list| - 1] + [Instruction(last.operation, parameters)];
      assert grown[..|grown| - 1] == list[..|list| - 1];
      ParseKeeps(acc, rest);
      assert Resume(grown, t).value[|list| - 1] == acc[|list| - 1];
    }
  }

  // Behind an accepted text u come blanks and a line that starts with an operator. If the first blank
  // is a newline, u keeps its instructions and the operator starts the next one; if not, the operator
  // is one more parameter of the last instruction of u, however many newlines the blanks hold. So the
  // instructions of u survive, and an acceptable next line is read as it should be, exactly when the
  // first blank is a newline.
  lemma LineBreakKept(u: string, blanks: string, operation: Operation, t: string)
    requires Plain(u) && Parse([], u).Some? && Blanks(blanks) && blanks != "" && Ends(t)
    ensures Parse([], u).value != []
    ensures var list, line := Parse([], u).value, OperationName(operation) + t;
            var text := u + NextLine(blanks, operation, t);
            var last := list[|list| - 1];
            && Parse([], text) == (if blanks[0] == '\n' then Parse(list, line)
                 else Resume(list[..|list| - 1]
                             + [Instruction(last.operation, last.parameters + [Text(OperationName(operation))])], t))
            && (Parse([], text).Some? ==> (list <= Parse([], text).value <==> blanks[0] == '\n'))
            && (Parse(list, line).Some? ==> (Parse([], text) == Parse(list, line) <==> blanks[0] == '\n'))
  {
    var s, line := NextLine(blanks, operation, t), OperationName(operation) + t;
    assert Ends(s);
    ParseContinues([], u, s);
    var list := Parse([], u).value;
    ParseKeeps(list, line);
    if blanks[0] == '\n' {
      NewlineSeparates(list, blanks, operation, t);
    } else {
      BlankSwallows(list, blanks, operation, t);
      ResumeGrows(list, Text(OperationName(operation)), t);
    }
  }

  lemma ParameterRead(acc: seq<Parameter>, word: string, t: string)
    requires Clean(word) && |word| <= 11 && Ends(t)
    ensures Parameters(acc, " " + (word + t)) == Parameters(acc + [ParameterOf(word)], t)
  {
    NextWordReads(" ", word, t);
  }

  lemma NothingLeft(acc: seq<Parameter>)
    ensures Parameters(acc, "") == Some((acc, ""))
  {
  }

  lemma InstructionRead(acc: seq<Instruction>, operation: Operation, t: string, parameters: seq<Parameter>,
                        rest: string)
    requires Ends(t) && Parameters([], t) == Some((parameters, rest))
    ensures Parse(acc, OperationName(operation) + t) == Parse(acc + [Instruction(operation, parameters)], rest)
  {
    var text := OperationName(operation) + t;
    ShownName(operation);
    assert "" + text == text;
    NextWordReads("", OperationName(operation), t);
    assert text[0] == OperationName(operation)[0];
  }

  // SET AX 1
  const SET_AX_1 := Instruction(SET, [Number(0), Number(1)])

  lemma SetAxOne()
    ensures Parse([], "SET AX 1") == Some([SET_AX_1])
  {
    assert "SET AX 1" == OperationName(SET) + " AX 1";
    assert " AX 1" == " " + ("AX" + " 1") && " 1" == " " + ("1" + "");
    ParameterRead([], "AX", " 1");
    assert ParameterOf("AX") == Number(0) && [] + [Number(0)] == [Number(0)];
    ParameterRead([Number(0)], "1", "");
    ShownNumber(1);
    assert ShowNat(1) == "1" && [Number(0)] + [Number(1)] == SET_AX_1.parameters;
    NothingLeft(SET_AX_1.parameters);
    InstructionRead([], SET, " AX 1", SET_AX_1.parameters, "");
    assert [] + [SET_AX_1] == [SET_AX_1];
    EndOfText([SET_AX_1]);
  }

  lemma ExitAlone(acc: seq<Instruction>)
    ensures Parse(acc, "EXIT") == Some(acc + [Instruction(EXIT, [])])
  {
    NothingLeft([]);
    assert OperationName(EXIT) + "" == "EXIT";
    InstructionRead(acc, EXIT, "", [], "");
    EndOfText(acc + [Instruction(EXIT, [])]);
  }

  // The blank behind "SET AX 1" takes the EXIT out of the program.
  lemma ExitSwallowed()
    ensures Parse([], "SET AX 1\nEXIT") == Some([SET_AX_1, Instruction(EXIT, [])])
    ensures Parse([], "SET AX 1 \nEXIT") == Some([Instruction(SET, [Number(0), Number(1), Text("EXIT")])])
  {
    SetAxOne();
    TwoLines();
    ExitBehind("SET AX 1");
  }

  lemma TwoLines()
    ensures "SET AX 1" + ("\n" + "EXIT") == "SET AX 1\nEXIT" && "SET AX 1" + (" \n" + "EXIT") == "SET AX 1 \nEXIT"
    ensures Plain("SET AX 1")
  {
  }

  lemma ExitBehind(u: string)
    requires Plain(u) && Parse([], u) == Some([SET_AX_1])
    ensures Parse([], u + ("\n" + "EXIT")) == Some([SET_AX_1, Instruction(EXIT, [])])
    ensures Parse([], u + (" \n" + "EXIT")) == Some([Instruction(SET, [Number(0), Number(1), Text("EXIT")])])
  {
    assert OperationName(EXIT) + "" == "EXIT";
    LineBreakKept(u, "\n", EXIT, "");
    ExitAlone([SET_AX_1]);
    assert [SET_AX_1] + [Instruction(EXIT, [])] == [SET_AX_1, Instruction(EXIT, [])];
    LineBreakKept(u, " \n", EXIT, "");
    SwallowedExit();
  }

  lemma SwallowedExit()
    ensures Resume([SET_AX_1][..0] + [Instruction(SET, SET_AX_1.parameters + [Text("EXIT")])], "")
         == Some([Instruction(SET, [Number(0), Number(1), Text("EXIT")])])
  {
    var more := SET_AX_1.parameters + [Text("EXIT")];
    var grown := [Instruction(SET, more)];
    assert more == [Number(0), Number(1), Text("EXIT")];
    assert [SET_AX_1][..0] + grown == grown && grown[..0] + grown == grown;
    NothingLeft(more);
    EndOfText(grown);
  }
}
