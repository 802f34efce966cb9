// Program text: what consola's parser makes of a file, and what log_instructions prints.
module ProgramText {
  import opened Words
  import opened Programs

  // ---------- Characters and words ----------

  // getc gives EOF past the end, and EOF kept in a char is the byte 255.
  const EOF: char := 255 as char

  function GetC(t: string): (r: (char, string))
    ensures |r.1| <= |t| && (t != "" ==> |r.1| < |t|)
  {
    if t == "" then (EOF, "") else (t[0], t[1..])
  }

  // ungetc; pushing EOF back does nothing
  function UngetC(c: char, t: string): string {
    if c == EOF then t else [c] + t
  }

  // What getc and ungetc in a row leave.
  function Peeked(t: string): (r: string)
    ensures |r| <= |t|
    ensures t != "" && t[0] != EOF ==> r == t
  {
    UngetC(GetC(t).0, GetC(t).1)
  }

  predicate Blank(c: char) {
    c == ' ' || c == '\t' || c == '\n'
  }

  predicate Stop(c: char) {
    Blank(c) || c == EOF
  }

  function SkipBlanks(t: string): (r: string)
    ensures |r| <= |t|
  {
    if t != "" && Blank(t[0]) then SkipBlanks(t[1..]) else t
  }

  // The do-while of next_word, with acc read so far; None when the word gets too long.
  function TakeWord(acc: string, t: string): (r: Option<(string, string)>)
    ensures r.Some? ==> |r.value.1| <= |t|
    decreases |t|
  {
    var (c, rest) := GetC(t);
    if Stop(c) then Some((acc, UngetC(c, rest)))
    else if |acc| > 10 then None
    else TakeWord(acc + [c], rest)
  }

  // next_word
  function NextWord(t: string): (r: Option<(string, string)>)
    ensures r.Some? && t != "" ==> |r.value.1| < |t|
  {
    var (c, rest) := GetC(SkipBlanks(t));
    TakeWord([c], rest)
  }

  predicate Digit(c: char) {
    '0' <= c <= '9'
  }

  // is_int
  predicate IsInt(word: string) {
    forall i :: 0 <= i < |word| ==> Digit(word[i])
  }

  function DigitValue(c: char): nat
    requires Digit(c)
  {
    c as int - '0' as int
  }

  function Value(word: string): nat
    requires IsInt(word)
  {
    if word == "" then 0 else 10 * Value(word[..|word| - 1]) + DigitValue(word[|word| - 1])
  }

  // atoi of digits, kept in an int
  function Atoi(word: string): Int32
    requires IsInt(word)
  {
    Signed(Value(word) % 0x1_0000_0000)
  }

  // ---------- Tables ----------

  const OPERATIONS: seq<(string, Operation)> :=
    [("SET", SET), ("ADD", ADD), ("MOV_IN", MOV_IN), ("MOV_OUT", MOV_OUT), ("I/O", IO), ("EXIT", EXIT)]

  const REGISTERS: seq<string> := ["AX", "BX", "CX", "DX"]

  // str_to_inst, from entry j of the table
  function OperationNamed(word: string, j: nat := 0): Option<Operation>
    decreases |OPERATIONS| - j
  {
    if j >= |OPERATIONS| then None
    else if OPERATIONS[j].0 == word then Some(OPERATIONS[j].1)
    else OperationNamed(word, j + 1)
  }

  // str_to_reg, from entry j of the table
  function RegisterNamed(word: string, j: nat := 0): (r: Option<nat>)
    ensures r.Some? ==> r.value < 4 && REGISTERS[r.value] == word
    ensures r.None? ==> forall i :: j <= i < 4 ==> REGISTERS[i] != word
    decreases 4 - j
  {
    if j >= 4 then None
    else if REGISTERS[j] == word then Some(j)
    else RegisterNamed(word, j + 1)
  }

  // The names of the registers and of the operations, each meaning one thing and no other word any.
  lemma RegisterNames(word: string)
    ensures RegisterNamed(word) == (match word
                                    case "AX" => Some(0) case "BX" => Some(1) case "CX" => Some(2)
                                    case "DX" => Some(3) case _ => None)
  {
    assert RegisterNamed(word, 4) == None;
    assert RegisterNamed(word, 3) == if REGISTERS[3] == word then Some(3) else None;
    assert RegisterNamed(word, 2) == if REGISTERS[2] == word then Some(2) else RegisterNamed(word, 3);
    assert RegisterNamed(word, 1) == if REGISTERS[1] == word then Some(1) else RegisterNamed(word, 2);
  }

  lemma OperationNames(word: string)
    ensures OperationNamed(word) == (match word
                                     case "SET" => Some(SET) case "ADD" => Some(ADD)
                                     case "MOV_IN" => Some(MOV_IN) case "MOV_OUT" => Some(MOV_OUT)
                                     case "I/O" => Some(IO) case "EXIT" => Some(EXIT) case _ => None)
  {
    assert OperationNamed(word, 6) == None;
    assert OperationNamed(word, 5) == if OPERATIONS[5].0 == word then Some(EXIT) else None;
    assert OperationNamed(word, 4) == if OPERATIONS[4].0 == word then Some(IO) else OperationNamed(word, 5);
    assert OperationNamed(word, 3) == if OPERATIONS[3].0 == word then Some(MOV_OUT) else OperationNamed(word, 4);
    assert OperationNamed(word, 2) == if OPERATIONS[2].0 == word then Some(MOV_IN) else OperationNamed(word, 3);
    assert OperationNamed(word, 1) == if OPERATIONS[1].0 == word then Some(ADD) else OperationNamed(word, 2);
  }

  // A word that is not the first of its instruction.
  function ParameterOf(word: string): Parameter {
    if RegisterNamed(word).Some? then Number(RegisterNamed(word).value)
    else if IsInt(word) then Number(Atoi(word))
    else Text(word)
  }

  // ---------- parse ----------

  // The inner loop of parse: parameters until a newline or the end.
  function Parameters(acc: seq<Parameter>, t: string): (r: Option<(seq<Parameter>, string)>)
    ensures r.Some? ==> |r.value.1| <= |t|
    decreases |t|
  {
    if GetC(t).0 == '\n' then Some((acc, Peeked(t)))
    else
      var t1 := Peeked(t);
      if GetC(t1).0 == EOF then Some((acc, Peeked(t1)))
      else
        var (word, rest) :- NextWord(t1);
        Parameters(acc + [ParameterOf(word)], rest)
  }

  // parse; None where it prints an error and exits
  function Parse(acc: seq<Instruction>, t: string): Option<seq<Instruction>>
    decreases |t|
  {
    if GetC(t).0 == EOF then Some(acc)
    else
      var (word, t1) :- NextWord(t);
      var operation :- OperationNamed(word);
      var (parameters, t2) :- Parameters([], t1);
      Parse(acc + [Instruction(operation, parameters)], t2)
  }

  // ---------- log_instructions ----------

  function OperationName(o: Operation): string {
    match o
    case SET => "SET"
    case ADD => "ADD"
    case MOV_IN => "MOV_IN"
    case MOV_OUT => "MOV_OUT"
    case IO => "I/O"
    case EXIT => "EXIT"
  }

  function DigitOf(d: nat): (c: char)
    requires d < 10
    ensures Digit(c) && DigitValue(c) == d
  {
    ('0' as int + d) as char
  }

  function ShowNat(n: nat): string {
    if n < 10 then [DigitOf(n)] else ShowNat(n / 10) + [DigitOf(n % 10)]
  }

  // %i
  function ShowInt(x: int): string {
    if x < 0 then "-" + ShowNat(-x) else ShowNat(x)
  }

  function ShowParameter(p: Parameter): string {
    match p case Text(text) => text case Number(value) => ShowInt(value)
  }

  // The parameters from number j on, each behind a blank.
  function ShowParameters(parameters: seq<Parameter>, j: nat := 0): string
    requires j <= |parameters|
    decreases |parameters| - j
  {
    if j == |parameters| then "" else " " + (ShowParameter(parameters[j]) + ShowParameters(parameters, j + 1))
  }

  function ShowInstruction(i: Instruction): string {
    OperationName(i.operation) + ShowParameters(i.parameters)
  }

  // The instructions from number k on, a newline between them.
  function Print(instructions: seq<Instruction>, k: nat := 0): string
    requires k <= |instructions|
    decreases |instructions| - k
  {
    if k == |instructions| then ""
    else ShowInstruction(instructions[k]) + (if k + 1 == |instructions| then "" else "\n" + Print(instructions, k + 1))
  }

  // ---------- Numbers come back ----------

  lemma {:induction false} ValueOfShow(n: nat)
    ensures ShowNat(n) != "" && IsInt(ShowNat(n)) && Value(ShowNat(n)) == n
  {
    if n >= 10 {
      ValueOfShow(n / 10);
      var front := ShowNat(n / 10);
      assert ShowNat(n)[..|ShowNat(n)| - 1] == front;
    }
  }

  function Pow10(k: nat): nat {
    if k == 0 then 1 else 10 * Pow10(k - 1)
  }

  lemma {:induction false} ShowLength(n: nat, k: nat)
    requires k > 0 && n < Pow10(k)
    ensures |ShowNat(n)| <= k
  {
    if n >= 10 { ShowLength(n / 10, k - 1); }
  }

  // A digit is no register name.
  lemma DigitsAreNoRegister(word: string)
    requires word != "" && Digit(word[0])
    ensures RegisterNamed(word).None?
  {
    assert forall i :: 0 <= i < 4 ==> !Digit(REGISTERS[i][0]);
  }

  predicate Clean(word: string) {
    word != "" && forall i :: 0 <= i < |word| ==> !Stop(word[i])
  }

  // A printed parameter reads back as itself exactly when it is a number that is not negative, or a
  // name that is neither a register nor all digits.
  lemma ParameterReadsBack(p: Parameter)
    requires p.Text? ==> Clean(p.text)
    ensures Clean(ShowParameter(p))
    ensures ParameterOf(ShowParameter(p)) == p <==>
            match p case Number(value) => value >= 0 case Text(text) => RegisterNamed(text).None? && !IsInt(text)
  {
    match p
    case Text(text) =>
    case Number(value) => if value >= 0 { ShownNumber(value); } else { ShownNegative(value); }
  }

  lemma ShownNumber(n: nat)
    requires n < 0x8000_0000
    ensures Clean(ShowNat(n)) && ParameterOf(ShowNat(n)) == Number(n)
  {
    ValueOfShow(n);
    DigitsRead(ShowNat(n));
  }

  lemma ShownNegative(x: int)
    requires x < 0
    ensures Clean(ShowInt(x)) && ParameterOf(ShowInt(x)).Text?
  {
    var word := ShowInt(x);
    ValueOfShow(-x);
    assert word[0] == '-' && !Digit(word[0]);
    assert forall i :: 0 <= i < 4 ==> REGISTERS[i][0] != '-';
  }

  // A word of digits is a number: the one it shows, wrapped into an int when it is too large for one.
  lemma DigitsRead(word: string)
    requires word != "" && IsInt(word)
    ensures var v, wrapped := Value(word), Value(word) % 0x1_0000_0000;
            && (v < 0x8000_0000 ==> ParameterOf(word) == Number(v))
            && ParameterOf(word) == Number(if wrapped < 0x8000_0000 then wrapped else wrapped - 0x1_0000_0000)
  {
    DigitsAreNoRegister(word);
  }

  lemma {:induction false} DigitsCount(word: string, last: char)
    requires IsInt(word) && Digit(last)
    ensures Value(word + [last]) == 10 * Value(word) + (last as int - '0' as int) && Value("") == 0
  {
    assert (word + [last])[..|word|] == word;
  }

  // ---------- Texts come back ----------

  // What can follow a word: nothing, or a blank or newline.
  predicate Ends(t: string) {
    t == "" || Blank(t[0])
  }

  lemma {:induction false} TakeWordAll(acc: string, word: string, t: string)
    requires Ends(t) && |acc| + |word| <= 11 && forall i :: 0 <= i < |word| ==> !Stop(word[i])
    ensures TakeWord(acc, word + t) == Some((acc + word, t))
    decreases |word|
  {
    if word == "" {
      assert word + t == t && acc + word == acc;
      if t != "" { assert [t[0]] + t[1..] == t; }
    } else {
      assert (word + t)[1..] == word[1..] + t;
      TakeWordAll(acc + [word[0]], word[1..], t);
      assert acc + [word[0]] + word[1..] == acc + word;
    }
  }

  // The twelfth character is one too many.
  lemma {:induction false} TakeWordTooLong(acc: string, word: string, t: string)
    requires |acc| <= 11 < |acc| + |word| && forall i :: 0 <= i < |word| ==> !Stop(word[i])
    ensures TakeWord(acc, word + t).None?
    decreases |word|
  {
    if |acc| <= 10 {
      assert (word + t)[1..] == word[1..] + t;
      TakeWordTooLong(acc + [word[0]], word[1..], t);
    }
  }

  predicate Blanks(s: string) {
    forall i :: 0 <= i < |s| ==> Blank(s[i])
  }

  lemma {:induction false} SkipAll(blanks: string, t: string)
    requires Blanks(blanks) && (t == "" || !Blank(t[0]))
    ensures SkipBlanks(blanks + t) == t
    decreases |blanks|
  {
    if blanks == "" {
      assert blanks + t == t;
    } else {
      assert (blanks + t)[1..] == blanks[1..] + t;
      SkipAll(blanks[1..], t);
    }
  }

  // Behind any blanks a clean word is read whole, exactly when it has at most 11 characters.
  lemma NextWordReads(blanks: string, word: string, t: string)
    requires Blanks(blanks) && Clean(word) && Ends(t)
    ensures NextWord(blanks + (word + t)) == if |word| <= 11 then Some((word, t)) else None
  {
    var all := word + t;
    SkipAll(blanks, all);
    assert all[1..] == word[1..] + t;
    if |word| <= 11 {
      TakeWordAll([word[0]], word[1..], t);
    } else {
      TakeWordTooLong([word[0]], word[1..], t);
    }
    assert [word[0]] + word[1..] == word;
  }

  // Names the parser does not take for something else, and numbers an int can hold.
  predicate ParameterPrintable(p: Parameter) {
    match p
    case Number(value) => value >= 0
    case Text(text) => Clean(text) && |text| <= 11 && RegisterNamed(text).None? && !IsInt(text)
  }

  predicate Printable(i: Instruction) {
    forall j :: 0 <= j < |i.parameters| ==> ParameterPrintable(i.parameters[j])
  }

  lemma ShownParameter(p: Parameter)
    requires ParameterPrintable(p)
    ensures Clean(ShowParameter(p)) && |ShowParameter(p)| <= 11 && ParameterOf(ShowParameter(p)) == p
  {
    ParameterReadsBack(p);
    if p.Number? {
      assert Pow10(10) == 10000000000 by {
        assert Pow10(2) == 100 && Pow10(4) == 10000;
        assert Pow10(6) == 1000000 && Pow10(8) == 100000000;
      }
      ShowLength(p.value, 10);
    }
  }

  lemma ShownName(o: Operation)
    ensures Clean(OperationName(o)) && |OperationName(o)| <= 11 && OperationNamed(OperationName(o)) == Some(o)
  {
    match o
    case SET => assert OperationNamed("SET") == Some(SET);
    case ADD => assert "SET"[0] != "ADD"[0]; assert OperationNamed("ADD", 1) == Some(ADD);
    case MOV_IN => MoreNames();
    case MOV_OUT => MoreNames();
    case IO => MoreNames();
    case EXIT => MoreNames();
  }

  lemma MoreNames()
    ensures OperationNamed("MOV_IN") == Some(MOV_IN) && OperationNamed("MOV_OUT") == Some(MOV_OUT)
    ensures OperationNamed("I/O") == Some(IO) && OperationNamed("EXIT") == Some(EXIT)
  {
    assert "I/O"[0] == 'I' && "SET"[0] == 'S' && "ADD"[0] == 'A' && "EXIT"[0] == 'E';
    assert OperationNamed("EXIT", 5) == Some(EXIT) && OperationNamed("EXIT", 3) == Some(EXIT);
    assert OperationNamed("EXIT", 1) == Some(EXIT);
    assert OperationNamed("I/O", 4) == Some(IO) && OperationNamed("I/O", 2) == Some(IO);
    assert OperationNamed("I/O", 1) == Some(IO);
    assert OperationNamed("MOV_OUT", 2) == Some(MOV_OUT);
    assert OperationNamed("MOV_IN", 2) == Some(MOV_IN);
  }

  lemma OneMore<T>(acc: seq<T>, list: seq<T>, k: nat)
    requires k < |list|
    ensures (acc + [list[k]]) + list[k + 1..] == acc + list[k..]
    ensures k + 1 == |list| ==> acc + [list[k]] == acc + list[k..]
  {
  }

  lemma Regroup(a: string, b: string, c: string, d: string)
    ensures (a + (b + c)) + d == a + (b + (c + d))
  {
  }

  // Printed parameters are read back one by one.
  lemma {:induction false} ParametersRead(acc: seq<Parameter>, i: Instruction, j: nat, t: string)
    requires Printable(i) && j <= |i.parameters| && Ends(t)
    ensures Parameters(acc, ShowParameters(i.parameters, j) + t) == Parameters(acc + i.parameters[j..], t)
    decreases |i.parameters| - j
  {
    var ps := i.parameters;
    if j == |ps| {
      assert "" + t == t && acc + ps[j..] == acc;
    } else {
      var word, more := ShowParameter(ps[j]), ShowParameters(ps, j + 1);
      ShownParameter(ps[j]);
      Regroup(" ", word, more, t);
      NextWordReads(" ", word, more + t);
      ParametersRead(acc + [ps[j]], i, j + 1, t);
      OneMore(acc, ps, j);
    }
  }

  // One printed line, behind a newline or not, is one instruction.
  lemma LineRead(acc: seq<Instruction>, inst: Instruction, newline: string, rest: string)
    requires Printable(inst) && (newline == "" || newline == "\n") && (rest == "" || rest[0] == '\n')
    ensures Parse(acc, newline + (ShowInstruction(inst) + rest)) == Parse(acc + [inst], rest)
  {
    var name, shown := OperationName(inst.operation), ShowParameters(inst.parameters);
    var all := newline + (name + (shown + rest));
    ShownName(inst.operation);
    assert newline + (ShowInstruction(inst) + rest) == all;
    assert all[0] == if newline == "" then name[0] else '\n';
    NextWordReads(newline, name, shown + rest);
    ParametersRead([], inst, 0, rest);
    assert [] + inst.parameters[0..] == inst.parameters;
  }

  // Parsing what log_instructions prints gives the program back, although registers print as numbers.
  lemma {:induction false} PrintParses(acc: seq<Instruction>, list: seq<Instruction>, k: nat, newline: string)
    requires forall i :: 0 <= i < |list| ==> Printable(list[i])
    requires k < |list| && (newline == "" || newline == "\n")
    ensures Parse(acc, newline + Print(list, k)) == Some(acc + list[k..])
    decreases |list| - k
  {
    var rest := if k + 1 == |list| then "" else "\n" + Print(list, k + 1);
    assert Print(list, k) == ShowInstruction(list[k]) + rest;
    LineRead(acc, list[k], newline, rest);
    if k + 1 < |list| {
      PrintParses(acc + [list[k]], list, k + 1, "\n");
    } else {
      EndOfText(acc + [list[k]]);
    }
    OneMore(acc, list, k);
  }

  lemma EndOfText(acc: seq<Instruction>)
    ensures Parse(acc, "") == Some(acc)
  {
  }

  // The printer's text of any valid program is that program.
  lemma PrintThenParse(list: seq<Instruction>)
    requires forall i :: 0 <= i < |list| ==> Printable(list[i])
    ensures Parse([], Print(list)) == Some(list)
  {
    if list != [] {
      PrintParses([], list, 0, "");
      assert "" + Print(list) == Print(list);
      assert [] + list[0..] == list;
    }
  }
}
