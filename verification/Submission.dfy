// From the text of a program to the kernel: what consola parses is what the other end of the
// connection decodes.
module Submission {
  import opened Words
  import opened Programs
  import opened ProgramText
  import opened Wire

  // The characters a C string of bytes can hold.
  predicate Bytes(t: string) {
    forall i :: 0 <= i < |t| ==> 0 < t[i] as int < 0x100
  }

  lemma SkipBlanksOk(t: string)
    requires Bytes(t)
    ensures Bytes(SkipBlanks(t))
  {
    if t != "" && Blank(t[0]) { SkipBlanksOk(t[1..]); }
  }

  lemma {:induction false} TakeWordOk(acc: string, t: string)
    requires Bytes(acc) && Bytes(t) && |acc| <= 11
    ensures TakeWord(acc, t).Some? ==>
              var (word, rest) := TakeWord(acc, t).value; Bytes(word) && |word| <= 11 && Bytes(rest)
    decreases |t|
  {
    var (c, rest) := GetC(t);
    if !Stop(c) && |acc| <= 10 { TakeWordOk(acc + [c], rest); }
  }

  lemma NextWordOk(t: string)
    requires Bytes(t)
    ensures NextWord(t).Some? ==> var (word, rest) := NextWord(t).value; Bytes(word) && |word| <= 11 && Bytes(rest)
  {
    SkipBlanksOk(t);
    var (c, rest) := GetC(SkipBlanks(t));
    TakeWordOk([c], rest);
  }

  predicate ParametersOk(list: seq<Parameter>) {
    forall i :: 0 <= i < |list| ==> ParameterOk(list[i])
  }

  lemma {:induction false} ParametersParsed(acc: seq<Parameter>, t: string)
    requires Bytes(t) && ParametersOk(acc)
    ensures Parameters(acc, t).Some? ==>
              var (list, rest) := Parameters(acc, t).value;
              ParametersOk(list) && Bytes(rest) && |list| + |rest| <= |acc| + |t|
    decreases |t|
  {
    if GetC(t).0 != '\n' {
      var t1 := Peeked(t);
      if GetC(t1).0 != EOF && NextWord(t1).Some? {
        NextWordOk(t1);
        var (word, rest) := NextWord(t1).value;
        ParametersParsed(acc + [ParameterOf(word)], rest);
      }
    }
  }

  predicate ProgramOk(list: seq<Instruction>) {
    forall i :: 0 <= i < |list| ==> InstructionOk(list[i])
  }

  lemma {:induction false} ProgramParsed(acc: seq<Instruction>, t: string)
    requires Bytes(t) && |t| < 0x8000_0000 && ProgramOk(acc)
    ensures Parse(acc, t).Some? ==> ProgramOk(Parse(acc, t).value) && |Parse(acc, t).value| <= |acc| + |t|
    decreases |t|
  {
    if GetC(t).0 != EOF && NextWord(t).Some? {
      NextWordOk(t);
      var (word, t1) := NextWord(t).value;
      ParametersParsed([], t1);
      if OperationNamed(word).Some? && Parameters([], t1).Some? {
        var (list, t2) := Parameters([], t1).value;
        ProgramParsed(acc + [Instruction(OperationNamed(word).value, list)], t2);
      }
    }
  }

  // Any file the parser accepts arrives as the program it was parsed to, followed by exactly the
  // bytes sent after it.
  lemma ParsedProgramArrives(text: string, rest: seq<Byte>)
    requires Bytes(text) && |text| < 0x8000_0000 && Parse([], text).Some?
    ensures DecInstructions(EncInstructions(Parse([], text).value) + rest) == Some((Parse([], text).value, rest))
  {
    ProgramParsed([], text);
    InstructionsRoundTrip(Parse([], text).value, rest);
  }
}
