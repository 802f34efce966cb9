// log_instructions: the text is appended to piece by piece in two nested loops.
module LogExtras {
  import opened Programs
  import opened ProgramText

  // The inner loop: the parameters of one instruction.
  method AppendParameters(message: string, parameters: seq<Parameter>) returns (text: string)
    ensures text == message + ShowParameters(parameters)
  {
    text := message;
    var j := 0;
    while j < |parameters|
      invariant j <= |parameters| && text + ShowParameters(parameters, j) == message + ShowParameters(parameters)
    {
      var shown := ShowParameter(parameters[j]);
      AppendTwice(text, " ", shown, ShowParameters(parameters, j + 1));
      text := text + " ";
      text := text + shown;
      j := j + 1;
    }
    assert text + "" == text;
  }

  lemma AppendTwice(a: string, b: string, c: string, d: string)
    ensures ((a + b) + c) + d == a + (b + (c + d))
  {
  }

  // One turn of the outer loop, up to the newline.
  method AppendInstruction(message: string, inst: Instruction) returns (text: string)
    ensures text == message + ShowInstruction(inst)
  {
    text := message + OperationName(inst.operation);
    text := AppendParameters(text, inst.parameters);
  }

  method LogInstructions(instructions: seq<Instruction>) returns (message: string)
    ensures message == Print(instructions)
  {
    message := "";
    var i := 0;
    while i < |instructions|
      invariant i <= |instructions| && message + Print(instructions, i) == Print(instructions)
    {
      ghost var before, shown := message, ShowInstruction(instructions[i]);
      var newline := if i != |instructions| - 1 then "\n" else "";
      message := AppendInstruction(message, instructions[i]);
      message := message + newline;
      i := i + 1;
      AppendTwice(before, shown, newline, Print(instructions, i));
    }
    assert message + "" == message;
  }
}
