// The parser as consola runs it: loops over a stream that characters are taken from and put back on.
module Parser {
  import opened Words
  import opened Programs
  import opened ProgramText

  // str_to_inst
  method StrToInst(word: string) returns (r: Option<Operation>)
    ensures r == OperationNamed(word)
    ensures r == (match word
                  case "SET" => Some(SET) case "ADD" => Some(ADD) case "MOV_IN" => Some(MOV_IN)
                  case "MOV_OUT" => Some(MOV_OUT) case "I/O" => Some(IO) case "EXIT" => Some(EXIT) case _ => None)
  {
    OperationNames(word);
    var j := 0;
    while j < |OPERATIONS|
      invariant 0 <= j <= |OPERATIONS| && OperationNamed(word) == OperationNamed(word, j)
    {
      if OPERATIONS[j].0 == word {
        return Some(OPERATIONS[j].1);
      }
      j := j + 1;
    }
    r := None;
  }

  // str_to_reg
  method StrToReg(word: string) returns (r: Option<nat>)
    ensures r == RegisterNamed(word)
    ensures r == (match word
                  case "AX" => Some(0) case "BX" => Some(1) case "CX" => Some(2) case "DX" => Some(3) case _ => None)
  {
    RegisterNames(word);
    var j := 0;
    while j < |REGISTERS|
      invariant 0 <= j <= |REGISTERS| && RegisterNamed(word) == RegisterNamed(word, j)
    {
      if REGISTERS[j] == word {
        return Some(j);
      }
      j := j + 1;
    }
    r := None;
  }

  // is_int
  method AllDigits(word: string) returns (r: bool)
    ensures r == IsInt(word)
  {
    var i := 0;
    while i < |word|
      invariant i <= |word| && forall j :: 0 <= j < i ==> Digit(word[j])
    {
      if !Digit(word[i]) {
        return false;
      }
      i := i + 1;
    }
    r := true;
  }

  // The branches of parse that make a parameter of a word.
  method MakeParameter(word: string) returns (p: Parameter)
    ensures p == ParameterOf(word)
  {
    var reg := StrToReg(word);
    if reg.Some? {
      return Number(reg.value);
    }
    var digits := AllDigits(word);
    if digits {
      p := Number(Atoi(word));
    } else {
      p := Text(word);
    }
  }

  // What is left to read of an open file.
  class Stream {
    var rest: string

    constructor (text: string)
      ensures rest == text
    {
      rest := text;
    }

    method Get() returns (c: char)
      modifies this
      ensures (c, rest) == GetC(old(rest))
    {
      if rest == "" {
        return EOF;
      }
      c := rest[0];
      rest := rest[1..];
    }

    method Unget(c: char)
      modifies this
      ensures rest == UngetC(c, old(rest))
    {
      if c != EOF {
        rest := [c] + rest;
      }
    }

    method NextIsNewline() returns (r: bool)
      modifies this
      ensures r == (GetC(old(rest)).0 == '\n') && rest == Peeked(old(rest))
    {
      var c := Get();
      Unget(c);
      r := c == '\n';
    }

    method NextIsEof() returns (r: bool)
      modifies this
      ensures r == (GetC(old(rest)).0 == EOF) && rest == Peeked(old(rest))
    {
      var c := Get();
      Unget(c);
      r := c == EOF;
    }

    // next_word; None where it exits because the word got too long
    method ReadWord() returns (r: Option<string>)
      modifies this
      ensures if r.Some? then NextWord(old(rest)) == Some((r.value, rest)) else NextWord(old(rest)).None?
    {
      var c := Get();
      while c == ' ' || c == '\t' || c == '\n'
        invariant GetC(SkipBlanks(old(rest))) == if Blank(c) then GetC(SkipBlanks(rest)) else (c, rest)
        decreases |rest|, if Blank(c) then 1 else 0
      {
        c := Get();
      }
      var word := [c];
      c := Get();
      ghost var outcome := NextWord(old(rest));
      while c != ' ' && c != '\t' && c != '\n' && c != EOF
        invariant TakeWordFrom(word, c, rest) == outcome
        decreases |rest|, if Stop(c) then 0 else 1
      {
        if |word| > 10 {
          return None;
        }
        word := word + [c];
        c := Get();
      }
      Unget(c);
      r := Some(word);
    }

    // parse; None where it reports an error and exits
    method Parse() returns (r: Option<seq<Instruction>>)
      modifies this
      ensures r == ProgramText.Parse([], old(rest))
    {
      var instructions: seq<Instruction> := [];
      ghost var outcome := ProgramText.Parse([], rest);
      var eof := NextIsEof();
      while !eof
        invariant eof ==> outcome == Some(instructions)
        invariant !eof ==> rest != "" && rest[0] != EOF && outcome == ProgramText.Parse(instructions, rest)
        decreases if eof then 0 else 1, |rest|
      {
        var word := ReadWord();
        if word.None? { return None; }
        var operation := StrToInst(word.value);
        if operation.None? { return None; }
        var parameters := ReadParameters();
        if parameters.None? { return None; }
        instructions := instructions + [Instruction(operation.value, parameters.value)];
        eof := NextIsEof();
      }
      r := Some(instructions);
    }

    // The inner loop of parse.
    method ReadParameters() returns (r: Option<seq<Parameter>>)
      modifies this
      ensures if r.Some? then Parameters([], old(rest)) == Some((r.value, rest)) else Parameters([], old(rest)).None?
    {
      var parameters: seq<Parameter> := [];
      ghost var outcome := Parameters([], rest);
      while true
        invariant outcome == Parameters(parameters, rest)
        decreases |rest|
      {
        var newline := NextIsNewline();
        if newline { return Some(parameters); }
        var eof := NextIsEof();
        if eof { return Some(parameters); }
        var word := ReadWord();
        if word.None? { return None; }
        var parameter := MakeParameter(word.value);
        parameters := parameters + [parameter];
      }
    }
  }

  // TakeWord once the next character is out of the stream.
  function TakeWordFrom(acc: string, c: char, rest: string): Option<(string, string)> {
    if Stop(c) then Some((acc, UngetC(c, rest)))
    else if |acc| > 10 then None
    else TakeWord(acc + [c], rest)
  }
}
