/** The older, line-based assembler (assembler.ts). It encodes with the
    newer instruction table (core/opcode.ts). Pass 1 walks the trimmed
    lines and binds every `name:` line to the summed widths of the
    instruction lines before it; pass 2 splits each line at white space
    and appends the encoding of its instruction to `program`. Errors are
    thrown strings.

    Where a parsed number or a looked-up register ends up in a byte, the
    source's NaN and `undefined` are stored as 0, and the model writes 0
    there. */
module LegacyAssembler {
  import opened Wrappers
  import opened Text
  import N = Numbers
  import C = CoreOpcode

  type Byte = C.Byte

  /** `parseNumber(s)` as it is stored: NaN becomes 0 in a byte and under
      `& 0xff`. */
  function NumberValue(s: string): (v: nat)
    ensures N.ParseNumber(s).Some? ==> v == N.ParseNumber(s).value
    ensures N.ParseNumber(s).None? ==> v == 0
  {
    match N.ParseNumber(s)
    case Some(n) => n
    case None => 0
  }

  /** `registerByNameLookup[name]` where the result is used as a register:
      a name no register has gives `undefined`, which is stored as 0, the
      number of A. */
  function RegisterOrA(name: string): (r: C.Register)
    ensures N.IsRegister(name) ==> C.RegisterName(r) == name
    ensures !N.IsRegister(name) ==> r == C.A
  {
    match C.RegisterByName(name)
    case Some(r) => C.RegisterNamesOneToOne(r, name); r
    case None => C.A
  }

  /** `s.substring(start, end)`: both bounds are clamped to the string and
      swapped when the first exceeds the second. */
  function Substring(s: string, start: int, end: int): (r: string)
    ensures 0 <= start <= end <= |s| ==> r == s[start..end]
  {
    var a := if start < 0 then 0 else if start > |s| then |s| else start;
    var b := if end < 0 then 0 else if end > |s| then |s| else end;
    if a <= b then s[a..b] else s[b..a]
  }

  // ---------------------------------------------------------------------
  // Operands

  /** `resolveLabelAddress` through `resolveAddressString`: a string that
      starts with a digit is a number, anything else a label. */
  function ResolveAddressString(labels: map<string, int>, s: string): (r: Result<int, string>)
    ensures N.IsNumber(s) ==> r == Ok(NumberValue(s))
    ensures !N.IsNumber(s) ==> (r.Ok? <==> s in labels) && (r.Ok? ==> r.value == labels[s])
    ensures r.Err? ==> r.error == "missing definition for label: " + s
  {
    if N.IsNumber(s) then Ok(NumberValue(s))
    else if s !in labels then Err("missing definition for label: " + s)
    else Ok(labels[s])
  }

  /** The bracket contents of an offset: an optional sign, then a register
      name or a literal taken `& 0xff`. */
  function OffsetBody(body: string): (o: C.Offset)
    ensures o.sign == (if body != [] && body[0] == '-' then C.Minus else C.Plus)
  {
    var signed := body != [] && (body[0] == '-' || body[0] == '+');
    var sign := if body != [] && body[0] == '-' then C.Minus else C.Plus;
    var rest := if signed then body[1..] else body;
    if N.IsRegister(rest) then C.Offset(C.RegisterOffset, sign, C.RegisterCode(RegisterOrA(rest)))
    else C.Offset(C.LiteralOffset, sign, C.LowByte(NumberValue(rest)))
  }

  /** `parseOffsetString` as written: it refuses an offset only when it
      neither starts with "[" nor ends with "]". Every offset it is given
      starts with "[", so it refuses none, and "[xy" reads as register x. */
  function ParseOffsetAsWritten(offset: string): (r: Result<C.Offset, string>)
  {
    if !StartsWith(offset, "[") && !EndsWith(offset, "]") then Err("invalid offset: " + offset)
    else Ok(OffsetBody(Substring(offset, 1, |offset| - 1)))
  }

  /** `parseOffsetString` with the evident intent: the offset must be
      enclosed in brackets. */
  function ParseOffset(offset: string): (r: Result<C.Offset, string>)
    ensures r.Ok? <==> StartsWith(offset, "[") && EndsWith(offset, "]") && |offset| >= 2
    ensures r.Ok? ==> r.value == OffsetBody(offset[1..|offset| - 1])
    ensures r.Err? ==> r.error == "invalid offset: " + offset
  {
    if !(StartsWith(offset, "[") && EndsWith(offset, "]") && |offset| >= 2) then Err("invalid offset: " + offset)
    else Ok(OffsetBody(offset[1..|offset| - 1]))
  }

  /** An unclosed bracket: the written test lets "[xy" through as register
      x, where the intended test refuses it. */
  lemma ParseOffsetAsWrittenAcceptsUnclosed()
    ensures ParseOffsetAsWritten("[xy") == Ok(C.Offset(C.RegisterOffset, C.Plus, C.RegisterCode(C.X)))
    ensures ParseOffset("[xy") == Err("invalid offset: [xy")
  {
    assert Substring("[xy", 1, 2) == "x";
    assert C.RegisterByName("x") == Some(C.X);
    assert "[xy"[2..] == "y";
    assert !EndsWith("[xy", "]");
    assert OffsetBody("x") == C.Offset(C.RegisterOffset, C.Plus, C.RegisterCode(C.X));
    assert ParseOffsetAsWritten("[xy") == Ok(OffsetBody("x"));
    assert "invalid offset: " + "[xy" == "invalid offset: [xy";
  }

  /** Where both tests accept, they agree; the intended one accepts
      exactly the bracketed offsets. */
  lemma ParseOffsetRefines(offset: string)
    ensures ParseOffset(offset).Ok? ==> ParseOffsetAsWritten(offset) == ParseOffset(offset)
  {
  }

  /** A register offset, with or without a minus sign, reads back as
      that register. */
  lemma RegisterOffsetForms(r: C.Register)
    ensures ParseOffset("[" + C.RegisterName(r) + "]") == Ok(C.Offset(C.RegisterOffset, C.Plus, C.RegisterCode(r)))
    ensures ParseOffset("[-" + C.RegisterName(r) + "]") == Ok(C.Offset(C.RegisterOffset, C.Minus, C.RegisterCode(r)))
  {
    var name := C.RegisterName(r);
    C.RegisterNamesOneToOne(r, name);
    var s1 := "[" + name + "]";
    assert s1[1..|s1| - 1] == name;
    var s2 := "[-" + name + "]";
    assert s2[1..|s2| - 1] == "-" + name && ("-" + name)[1..] == name;
  }

  /** The body of a signed decimal literal offset. */
  lemma SignedLiteralBody(c: char, n: nat)
    requires c == '+' || c == '-'
    ensures OffsetBody([c] + NatToString(n)) == C.Offset(C.LiteralOffset, if c == '-' then C.Minus else C.Plus, n % 256)
  {
    var d := NatToString(n);
    assert NumberValue(d) == n by { N.ParseNumberRoundTrip(n); }
    assert !N.IsRegister(d) by {
      assert '0' <= d[0] <= '9';
    }
    assert ([c] + d)[1..] == d;
  }

  /** One signed decimal literal offset, "[" c n "]". */
  lemma SignedLiteralOffset(c: char, n: nat)
    requires c == '+' || c == '-'
    ensures ParseOffset("[" + [c] + NatToString(n) + "]") == Ok(C.Offset(C.LiteralOffset, if c == '-' then C.Minus else C.Plus, n % 256))
  {
    SignedLiteralBody(c, n);
    hide OffsetBody, NatToString;
    var d := NatToString(n);
    var s := "[" + [c] + d + "]";
    assert s[..1] == "[" && s[|s| - 1..] == "]";
    assert s[1..|s| - 1] == [c] + d;
  }

  /** A signed decimal literal offset reads back as its value modulo 256. */
  lemma LiteralOffsetForms(n: nat)
    ensures ParseOffset("[+" + NatToString(n) + "]") == Ok(C.Offset(C.LiteralOffset, C.Plus, n % 256))
    ensures ParseOffset("[-" + NatToString(n) + "]") == Ok(C.Offset(C.LiteralOffset, C.Minus, n % 256))
  {
    hide ParseOffset, NatToString;
    SignedLiteralOffset('+', n);
    assert "[+" == "[" + ['+'];
    SignedLiteralOffset('-', n);
    assert "[-" == "[" + ['-'];
  }

  // ---------------------------------------------------------------------
  // Instructions

  /** What one line appends to `program` (numbers, stored as bytes at the
      end), and the error it throws, if any, after appending them. */
  datatype Pushed = Pushed(values: seq<int>, error: Option<string>)

  function FromResult(r: Result<seq<Byte>, string>): (p: Pushed)
    ensures r.Ok? ==> p == Pushed(r.value, None)
    ensures r.Err? ==> p == Pushed([], Some(r.error))
  {
    match r
    case Ok(bytes) => Pushed(bytes, None)
    case Err(e) => Pushed([], Some(e))
  }

  /** The address text of a `peek`/`poke` operand: all of it before its
      first "[". */
  function AddressPart(operand: string): (a: string)
    ensures '[' !in a && a <= operand
    ensures '[' !in operand ==> a == operand
  {
    match IndexOf(operand, '[')
    case Some(k) => operand[..k]
    case None => operand
  }

  /** The offset text of a `peek`/`poke` operand: from its first "[" on. */
  function OffsetPart(operand: string): (o: Option<string>)
    ensures o.Some? <==> '[' in operand
    ensures o.Some? ==> AddressPart(operand) + o.value == operand && o.value[0] == '['
  {
    match IndexOf(operand, '[')
    case Some(k) => Some(operand[k..])
    case None => None
  }

  /** `parseMemoryAccessInstruction`: the text before "[" is the address,
      a register name or else a number or label; the text from "[" on is
      the offset; without "[" the offset is `emptyOffset()`. */
  function MemoryAccess(labels: map<string, int>, op: C.Opcode, operands: seq<string>): (r: Result<seq<Byte>, string>)
    requires C.IsMemoryAccess(op)
    ensures |operands| != 1 ==> r == Err("expected operand")
    ensures |operands| == 1 ==>
      var source, offsetText := AddressPart(operands[0]), OffsetPart(operands[0]);
      var offset := if offsetText.Some? then ParseOffset(offsetText.value) else Ok(C.EmptyOffset());
      && (!N.IsRegister(source) && ResolveAddressString(labels, source).Err? ==>
            r == Err(ResolveAddressString(labels, source).error))
      && ((N.IsRegister(source) || ResolveAddressString(labels, source).Ok?) && offset.Err? ==> r == Err(offset.error))
      && (r.Ok? <==> (N.IsRegister(source) || ResolveAddressString(labels, source).Ok?) && offset.Ok?)
      && (r.Ok? ==> (|r.value| == C.Width(op) &&
            C.DecodeMemoryAccess(r.value) == Some((op,
              if N.IsRegister(source) then C.RegisterAt(C.RegisterByName(source).value)
              else C.LiteralAt(ResolveAddressString(labels, source).value % 65536),
              C.NormalOffset(offset.value)))))
  {
    if |operands| != 1 then Err("expected operand")
    else
      var operand := operands[0];
      var source := AddressPart(operand);
      var address :-
        if N.IsRegister(source) then Ok(C.RegisterAt(RegisterOrA(source)))
        else match ResolveAddressString(labels, source)
          case Ok(v) => Ok(C.LiteralAt(v))
          case Err(e) => Err(e);
      var offset :- if OffsetPart(operand).Some? then ParseOffset(OffsetPart(operand).value) else Ok(C.EmptyOffset());
      C.MemoryAccessRoundTrip(op, address, offset);
      Ok(C.EncodeMemoryAccess(op, address, offset))
  }

  /** `parseArithmeticLogicInstruction`: the opcode is appended first, and
      the left register before the right operand is checked. */
  function ArithmeticLogic(name: string, op: C.Opcode, operands: seq<string>): (p: Pushed)
    requires C.IsArithmeticLogic(op)
    ensures p.error.None? ==> |p.values| == C.Width(op)
    ensures p.values != [] && p.values[0] == C.OpcodeCode(op)
    ensures p.error.None? <==> (|operands| == 2 && N.IsRegister(operands[0]) &&
      (N.IsRegister(operands[1]) || N.IsNumber(operands[1])))
    ensures p.error.None? ==> (C.RegisterFromCode(p.values[1]) == C.RegisterByName(operands[0]) &&
      if N.IsRegister(operands[1]) then
        p.values[2] == C.OperandTypeCode(C.RegisterOperand) && C.RegisterFromCode(p.values[3]) == C.RegisterByName(operands[1])
      else p.values[2..] == [C.OperandTypeCode(C.LiteralOperand) as int, NumberValue(operands[1]) % 256])
    ensures p.error.Some? ==> |p.values| == (if |operands| == 2 && N.IsRegister(operands[0]) then 2 else 1)
  {
    var head := [C.OpcodeCode(op) as int];
    if |operands| != 2 then Pushed(head, Some(name + ": expected 2 operands"))
    else if !N.IsRegister(operands[0]) then Pushed(head, Some(name + ": first operand must be register"))
    else
      var left := head + [C.RegisterCode(RegisterOrA(operands[0])) as int];
      if N.IsRegister(operands[1]) then
        Pushed(left + [C.OperandTypeCode(C.RegisterOperand) as int, C.RegisterCode(RegisterOrA(operands[1])) as int], None)
      else if !N.IsNumber(operands[1]) then
        Pushed(left, Some(name + ": " + operands[1] + " is not a valid number"))
      else
        Pushed(left + [C.OperandTypeCode(C.LiteralOperand) as int, C.LowByte(NumberValue(operands[1])) as int], None)
  }

  /** `parseOperand`: a literal when the text starts with a digit, and
      otherwise a register. */
  function ParseOperand(s: string): C.Operand {
    if N.IsNumber(s) then C.LiteralValue(NumberValue(s)) else C.RegisterValue(RegisterOrA(s))
  }

  /** `s.match` on the `undefined` that `split("=")` leaves when there is no
      "=": a TypeError. */
  const MissingSource: string := "Cannot read properties of undefined (reading 'match')"

  /** `parseSetInstruction`: `destination=source`. */
  function SetInstruction(operands: seq<string>): (r: Result<seq<Byte>, string>)
    ensures r.Ok? <==> |operands| == 1 && N.IsRegister(Split(operands[0], '=')[0]) && |Split(operands[0], '=')| >= 2
    ensures r.Ok? ==> |r.value| == C.Width(C.Set)
    ensures r.Ok? ==> var parts := Split(operands[0], '=');
      var decoded := C.DecodeSet(r.value);
      decoded.Some? && C.RegisterName(decoded.value.0) == parts[0] && decoded.value.1 == C.NormalOperand(ParseOperand(parts[1]))
  {
    if |operands| != 1 then Err("set: expected operand")
    else
      var parts := Split(operands[0], '=');
      if !N.IsRegister(parts[0]) then Err("set: expected register for destination, got " + parts[0])
      else if |parts| < 2 then Err(MissingSource)
      else
        var destination := RegisterOrA(parts[0]);
        var source := ParseOperand(parts[1]);
        C.SetRoundTrip(destination, source);
        Ok(C.EncodeSet(destination, source))
  }

  /** `parsePushInstruction`: the operand's value is appended as it is; the
      byte it becomes is taken at the end. */
  function PushInstruction(operands: seq<string>): (r: Result<seq<int>, string>)
    ensures r.Ok? <==> |operands| == 1
    ensures r.Ok? ==> |r.value| == C.Width(C.Push) && r.value[0] == C.OpcodeCode(C.Push)
    ensures r.Ok? && N.IsNumber(operands[0]) ==>
      r.value[1..] == [C.OperandTypeCode(C.LiteralOperand) as int, NumberValue(operands[0])]
    ensures r.Ok? && !N.IsNumber(operands[0]) ==>
      r.value[1] == C.OperandTypeCode(C.RegisterOperand) &&
      C.RegisterFromCode(r.value[2]) == Some(RegisterOrA(operands[0]))
    ensures r.Ok? && N.IsRegister(operands[0]) ==> C.RegisterFromCode(r.value[2]) == C.RegisterByName(operands[0])
  {
    if |operands| != 1 then Err("push: expected operand")
    else match ParseOperand(operands[0])
      case LiteralValue(v) => Ok([C.OpcodeCode(C.Push) as int, C.OperandTypeCode(C.LiteralOperand) as int, v])
      case RegisterValue(reg) => Ok([C.OpcodeCode(C.Push) as int, C.OperandTypeCode(C.RegisterOperand) as int, C.RegisterCode(reg) as int])
  }

  /** `pop` with no operand pops into A; with one, it must be a register. */
  function PopInstruction(operands: seq<string>): (p: Pushed)
    ensures p.error.None? ==> |p.values| == C.Width(C.Pop)
    ensures operands == [] ==> p == Pushed([C.OpcodeCode(C.Pop) as int, C.RegisterCode(C.A) as int], None)
    ensures operands != [] ==> (p.error.None? <==> N.IsRegister(operands[0]))
    ensures operands != [] && N.IsRegister(operands[0]) ==> C.RegisterFromCode(p.values[1]) == C.RegisterByName(operands[0])
    ensures p.error.Some? ==> p.values == [C.OpcodeCode(C.Pop) as int]
  {
    var head := [C.OpcodeCode(C.Pop) as int];
    if operands == [] then Pushed(head + [C.RegisterCode(C.A) as int], None)
    else if N.IsRegister(operands[0]) then Pushed(head + [C.RegisterCode(RegisterOrA(operands[0])) as int], None)
    else Pushed(head, Some("pop: expected register, got '" + operands[0] + "'"))
  }

  /** `syscall n`: the number is appended `& 0xff`. */
  function SyscallInstruction(operands: seq<string>): (p: Pushed)
    ensures p.error.None? ==> |p.values| == C.Width(C.SysCall)
    ensures p.error.None? <==> |operands| == 1 && N.IsNumber(operands[0])
    ensures p.error.None? ==> p.values == [C.OpcodeCode(C.SysCall) as int, NumberValue(operands[0]) % 256]
    ensures p.error.Some? ==> p.values == [C.OpcodeCode(C.SysCall) as int]
  {
    var head := [C.OpcodeCode(C.SysCall) as int];
    if |operands| != 1 then Pushed(head, Some("syscall: expected operand"))
    else if N.IsNumber(operands[0]) then Pushed(head + [C.LowByte(NumberValue(operands[0])) as int], None)
    else Pushed(head, Some("syscall: expected number"))
  }

  /** The instruction of a line split at white space: the lookups of
      `parseLine` in order, which between them cover every mnemonic. */
  function ParseInstruction(labels: map<string, int>, words: seq<string>): (p: Pushed)
    requires |words| > 0
    ensures C.OpcodeByName(words[0]).None? ==> p == Pushed([], Some("encountered unknown instruction: " + words[0]))
    ensures p.error.None? ==> C.OpcodeByName(words[0]).Some? && |p.values| == C.Width(C.OpcodeByName(words[0]).value)
    ensures C.OpcodeByName(words[0]) == Some(C.Halt) || C.OpcodeByName(words[0]) == Some(C.Return) ==>
      p == Pushed([C.OpcodeCode(C.OpcodeByName(words[0]).value) as int], None)
    ensures C.OpcodeByName(words[0]).Some? && C.IsBranching(C.OpcodeByName(words[0]).value) ==>
      var op := C.OpcodeByName(words[0]).value;
      if |words| != 2 then p == Pushed([], Some(words[0] + ": expected operand"))
      else match ResolveAddressString(labels, words[1])
        case Ok(address) => p == Pushed(C.EncodeBranching(op, address), None)
        case Err(e) => p == Pushed([], Some(e))
    ensures C.OpcodeByName(words[0]).Some? && C.IsArithmeticLogic(C.OpcodeByName(words[0]).value) ==>
      p == ArithmeticLogic(words[0], C.OpcodeByName(words[0]).value, words[1..])
    ensures C.OpcodeByName(words[0]) == Some(C.Set) ==> p == FromResult(SetInstruction(words[1..]))
    ensures C.OpcodeByName(words[0]).Some? && C.IsMemoryAccess(C.OpcodeByName(words[0]).value) ==>
      p == FromResult(MemoryAccess(labels, C.OpcodeByName(words[0]).value, words[1..]))
    ensures C.OpcodeByName(words[0]) == Some(C.Push) ==>
      p == if PushInstruction(words[1..]).Ok? then Pushed(PushInstruction(words[1..]).value, None)
           else Pushed([], Some(PushInstruction(words[1..]).error))
    ensures C.OpcodeByName(words[0]) == Some(C.Pop) ==> p == PopInstruction(words[1..])
    ensures C.OpcodeByName(words[0]) == Some(C.SysCall) ==> p == SyscallInstruction(words[1..])
  {
    var instruction := words[0];
    var operands := words[1..];
    match C.OpcodeByName(instruction)
    case None => Pushed([], Some("encountered unknown instruction: " + instruction))
    case Some(op) =>
      if op == C.Halt || op == C.Return then Pushed([C.OpcodeCode(op) as int], None)
      else if C.IsBranching(op) then
        if |operands| != 1 then Pushed([], Some(instruction + ": expected operand"))
        else match ResolveAddressString(labels, operands[0])
          case Err(e) => Pushed([], Some(e))
          case Ok(address) => Pushed(C.EncodeBranching(op, address), None)
      else if C.IsArithmeticLogic(op) then ArithmeticLogic(instruction, op, operands)
      else if op == C.Set then FromResult(SetInstruction(operands))
      else if C.IsMemoryAccess(op) then FromResult(MemoryAccess(labels, op, operands))
      else if op == C.Push then
        match PushInstruction(operands)
        case Ok(values) => Pushed(values, None)
        case Err(e) => Pushed([], Some(e))
      else if op == C.Pop then PopInstruction(operands)
      else SyscallInstruction(operands)
  }

  /** The arithmetic-logic encodings of the assembler's examples: a
      register right operand, and a literal one. */
  lemma ArithmeticLogicExamples()
    ensures ParseInstruction(map[], ["+", "a", "x"]) == Pushed([C.OpcodeCode(C.Add) as int, 0, 1, 1], None)
    ensures ParseInstruction(map[], ["-", "a", "123"]) == Pushed([C.OpcodeCode(C.Subtract) as int, 0, 0, 123], None)
    ensures ParseInstruction(map[], ["+", "a"]).error == Some("+: expected 2 operands")
  {
    C.MnemonicFound(C.Add);
    C.MnemonicFound(C.Subtract);
    N.ParseNumberExamples();
    hide C.OpcodeByName, N.ParseNumber, ParseInstruction;
    assert "+" + ": expected 2 operands" == "+: expected 2 operands";
    assert ["+", "a", "x"][1..] == ["a", "x"] && ["-", "a", "123"][1..] == ["a", "123"] && ["+", "a"][1..] == ["a"];
    assert C.RegisterByName("a") == Some(C.A) && C.RegisterByName("x") == Some(C.X) && C.RegisterByName("123") == None;
    assert ArithmeticLogic("+", C.Add, ["a", "x"]) == Pushed([C.OpcodeCode(C.Add) as int, 0, 1, 1], None);
    assert ArithmeticLogic("-", C.Subtract, ["a", "123"]) == Pushed([C.OpcodeCode(C.Subtract) as int, 0, 0, 123], None);
    assert ArithmeticLogic("+", C.Add, ["a"]).error == Some("+: expected 2 operands");
  }

  /** `pop` with a register, and with none. */
  lemma PopExamples()
    ensures ParseInstruction(map[], ["pop", "x"]) == Pushed([C.OpcodeCode(C.Pop) as int, 1], None)
    ensures ParseInstruction(map[], ["pop"]) == Pushed([C.OpcodeCode(C.Pop) as int, 0], None)
  {
    C.MnemonicFound(C.Pop);
    assert C.OpcodeByName("pop") == Some(C.Pop);
    hide C.OpcodeByName, ParseInstruction;
    assert ["pop", "x"][1..] == ["x"] && ["pop"][1..] == [];
    assert ParseInstruction(map[], ["pop", "x"]) == PopInstruction(["x"]);
    assert ParseInstruction(map[], ["pop"]) == PopInstruction([]);
    assert C.RegisterByName("x") == Some(C.X);
  }

  /** `push` with a literal, and with a register. */
  lemma PushExamples()
    ensures ParseInstruction(map[], ["push", "123"]) == Pushed([C.OpcodeCode(C.Push) as int, 0, 123], None)
    ensures ParseInstruction(map[], ["push", "fp"]) == Pushed([C.OpcodeCode(C.Push) as int, 1, 6], None)
  {
    C.MnemonicFound(C.Push);
    N.ParseNumberExamples();
    assert C.OpcodeByName("push") == Some(C.Push);
    assert NumberValue("123") == 123;
    hide C.OpcodeByName, N.ParseNumber, ParseInstruction;
    assert ["push", "123"][1..] == ["123"] && ["push", "fp"][1..] == ["fp"];
    assert PushInstruction(["123"]) == Ok([C.OpcodeCode(C.Push) as int, 0, 123]);
    assert ParseInstruction(map[], ["push", "123"]) == Pushed(PushInstruction(["123"]).value, None);
    assert !N.IsNumber("fp") && C.RegisterByName("fp") == Some(C.FP);
    assert PushInstruction(["fp"]) == Ok([C.OpcodeCode(C.Push) as int, 1, 6]);
    assert ParseInstruction(map[], ["push", "fp"]) == Pushed(PushInstruction(["fp"]).value, None);
  }

  /** `syscall` with a number. */
  lemma SyscallExample()
    ensures ParseInstruction(map[], ["syscall", "123"]) == Pushed([C.OpcodeCode(C.SysCall) as int, 123], None)
  {
    C.MnemonicFound(C.SysCall);
    N.ParseNumberExamples();
    assert C.OpcodeByName("syscall") == Some(C.SysCall);
    assert NumberValue("123") == 123;
    hide C.OpcodeByName, N.ParseNumber, ParseInstruction;
    assert ["syscall", "123"][1..] == ["123"];
    assert N.IsNumber("123") && 123 % 256 == 123;
    assert SyscallInstruction(["123"]) == Pushed([C.OpcodeCode(C.SysCall) as int, 123], None);
    assert ParseInstruction(map[], ["syscall", "123"]) == SyscallInstruction(["123"]);
  }

  /** `call` with a number: the address big-endian. */
  lemma CallExample()
    ensures ParseInstruction(map[], ["call", "123"]) == Pushed([C.OpcodeCode(C.Call) as int, 0, 123], None)
  {
    C.MnemonicFound(C.Call);
    N.ParseNumberExamples();
    assert C.OpcodeByName("call") == Some(C.Call);
    assert NumberValue("123") == 123;
    hide C.OpcodeByName, N.ParseNumber, ParseInstruction;
    assert ["call", "123"][1..] == ["123"];
    assert ResolveAddressString(map[], "123") == Ok(123);
    assert ParseInstruction(map[], ["call", "123"]) == Pushed(C.EncodeBranching(C.Call, 123), None);
  }

  /** A jump to a defined label encodes its address; to an undefined one,
      it throws. */
  lemma JumpExamples()
    ensures ParseInstruction(map["label" := 0], ["jump!=0", "label"]) == Pushed([C.OpcodeCode(C.JumpIfNotZero) as int, 0, 0], None)
    ensures ParseInstruction(map[], ["jump", "end"]) == Pushed([], Some("missing definition for label: end"))
  {
    C.MnemonicFound(C.JumpIfNotZero);
    C.MnemonicFound(C.Jump);
    assert C.OpcodeByName("jump!=0") == Some(C.JumpIfNotZero) && C.OpcodeByName("jump") == Some(C.Jump);
    hide C.OpcodeByName, ParseInstruction;
    assert "missing definition for label: " + "end" == "missing definition for label: end";
    assert ["jump!=0", "label"][1..] == ["label"] && ["jump", "end"][1..] == ["end"];
    assert !N.IsNumber("label") && !N.IsNumber("end");
    assert ResolveAddressString(map["label" := 0], "label") == Ok(0);
    assert ResolveAddressString(map[], "end") == Err("missing definition for label: end");
    assert ParseInstruction(map["label" := 0], ["jump!=0", "label"]) == Pushed(C.EncodeBranching(C.JumpIfNotZero, 0), None);
  }

  /** A memory-access operand of the assembler's examples: a register
      address with a negative register offset. */
  lemma RegisterAddressExample()
    ensures MemoryAccess(map[], C.Peek, ["xy[-a]"]) == Ok([C.OpcodeCode(C.Peek), 1, 3, 0, 1, 1, 0])
  {
    var encoded := C.EncodeMemoryAccess(C.Peek, C.RegisterAt(C.XY), C.Offset(C.RegisterOffset, C.Minus, 0));
    assert encoded == [C.OpcodeCode(C.Peek), 1, 3, 0, 1, 1, 0];
    assert MemoryAccess(map[], C.Peek, ["xy[-a]"]) == Ok(encoded) by {
      RegisterAddressParts();
      hide IndexOf, ParseOffset;
      assert C.RegisterByName("xy") == Some(C.XY);
    }
    hide MemoryAccess, C.EncodeMemoryAccess;
  }

  /** How `xy[-a]` splits into its address and its offset. */
  lemma RegisterAddressParts()
    ensures AddressPart("xy[-a]") == "xy" && OffsetPart("xy[-a]") == Some("[-a]")
    ensures ParseOffset("[-a]") == Ok(C.Offset(C.RegisterOffset, C.Minus, 0))
  {
    assert IndexOf("xy[-a]", '[') == Some(2);
    assert "xy[-a]"[..2] == "xy" && "xy[-a]"[2..] == "[-a]";
    var body := "[-a]"[1..|"[-a]"| - 1];
    assert body == "-a" && body[1..] == "a";
  }

  /** A memory-access operand of the assembler's examples: a hexadecimal
      literal address with no offset. */
  lemma LiteralAddressExample()
    ensures MemoryAccess(map[], C.Poke, ["0xcccc"]) == Ok([C.OpcodeCode(C.Poke), 0, 0xcc, 0xcc, 0, 0, 0])
  {
    assert AddressPart("0xcccc") == "0xcccc" && OffsetPart("0xcccc") == None by {
      assert IndexOf("0xcccc", '[') == None;
    }
    assert ResolveAddressString(map[], "0xcccc") == Ok(52428) by {
      N.HexNumberExamples();
    }
    hide IndexOf, N.ParseNumber;
    assert C.RegisterByName("0xcccc") == None;
    assert MemoryAccess(map[], C.Poke, ["0xcccc"]) == Ok(C.EncodeMemoryAccess(C.Poke, C.LiteralAt(52428), C.EmptyOffset()));
    assert C.HighByte(52428) == 0xcc && C.LowByte(52428) == 0xcc;
    assert C.EncodeMemoryAccess(C.Poke, C.LiteralAt(52428), C.EmptyOffset()) == [C.OpcodeCode(C.Poke), 0, 0xcc, 0xcc, 0, 0, 0];
  }

  /** How pass 1 reads a line, in the order of its tests: blank, a label
      definition (the trimmed line ends in ":", tested before comments), a
      comment, or an instruction whose first word is looked up. */
  datatype LineKind =
    | Blank
    | LabelDef(name: string)
    | Comment
    | Instruction(op: C.Opcode)
    | UnknownInstruction(word: string)

  function Classify(line: string): LineKind {
    var t := Trim(line);
    if t == [] then Blank
    else if EndsWith(t, ":") then LabelDef(t[..|t| - 1])
    else if StartsWith(t, "//") then Comment
    else
      var word := SplitSpaces(t)[0];
      match C.OpcodeByName(word)
      case None => UnknownInstruction(word)
      case Some(op) => Instruction(op)
  }

  /** A label definition is a trimmed line ending in ":", and names the
      text before the colon. */
  lemma ClassifyLabel(line: string)
    ensures Classify(line).LabelDef? <==> Trim(line) != [] && EndsWith(Trim(line), ":")
    ensures Classify(line).LabelDef? ==> Classify(line).name + ":" == Trim(line)
  {
    var t := Trim(line);
    if Classify(line).LabelDef? {
      assert t[..|t| - 1] + ":" == t;
    }
  }

  /** An instruction line is one whose first word is that opcode's
      mnemonic. */
  lemma ClassifyInstruction(line: string)
    ensures Classify(line).Instruction? ==> C.OpcodeByName(SplitSpaces(Trim(line))[0]) == Some(Classify(line).op)
    ensures Classify(line).Instruction? ==> Trim(line) != [] && !EndsWith(Trim(line), ":") && !StartsWith(Trim(line), "//")
  {
  }

  /** The width pass 1 counts for a line of this kind. */
  function KindWidth(k: LineKind): nat {
    if k.Instruction? then C.Width(k.op) else 0
  }

  predicate IsSkipped(t: string) {
    t == [] || StartsWith(t, "//")
  }

  /** `parseLine(line)` as written: pass 2 skips a label only when the
      FIRST WORD ends in ":", so "halt a:", which pass 1 took for a label,
      assembles to a halt. */
  function LineBytesAsWritten(labels: map<string, int>, line: string): (p: Pushed)
  {
    var t := Trim(line);
    if IsSkipped(t) then Pushed([], None)
    else
      var words := SplitSpaces(t);
      if EndsWith(words[0], ":") then Pushed([], None) else ParseInstruction(labels, words)
  }

  /** `parseLine(line)` with the evident intent: what pass 1 took for a
      label emits nothing. */
  function LineBytes(labels: map<string, int>, line: string): (p: Pushed)
    ensures Classify(line).LabelDef? ==> p == Pushed([], None)
    ensures !Classify(line).LabelDef? ==> p == LineBytesAsWritten(labels, line)
  {
    if Classify(line).LabelDef? then Pushed([], None) else LineBytesAsWritten(labels, line)
  }

  // ---------------------------------------------------------------------
  // Pass 1

  /** The state of `registerLabelAddresses`: the labels, the running
      `address`, and the error thrown, if any. */
  datatype Scan = Scan(labels: map<string, int>, address: int, error: Option<string>)

  /** One line of pass 1. */
  function ScanLine(s: Scan, k: LineKind): Scan {
    match k
    case LabelDef(name) => s.(labels := s.labels[name := s.address])
    case Instruction(op) => s.(address := s.address + C.Width(op))
    case UnknownInstruction(word) => s.(error := Some("encountered unknown instruction: " + word))
    case _ => s
  }

  /** The kinds of a sequence of lines. */
  function Kinds(lines: seq<string>): (ks: seq<LineKind>)
    ensures |ks| == |lines|
    decreases |lines|
  {
    if lines == [] then [] else Kinds(lines[..|lines| - 1]) + [Classify(lines[|lines| - 1])]
  }

  lemma {:induction false} KindsPrefix(lines: seq<string>, k: nat)
    requires k <= |lines|
    ensures Kinds(lines)[..k] == Kinds(lines[..k])
    decreases |lines|
  {
    if k < |lines| {
      var init := lines[..|lines| - 1];
      KindsPrefix(init, k);
      assert init[..k] == lines[..k];
    } else {
      assert lines[..k] == lines;
    }
  }

  lemma KindsLast(lines: seq<string>)
    requires lines != []
    ensures Kinds(lines)[|lines| - 1] == Classify(lines[|lines| - 1])
  {
  }

  /** The kind of each line is its classification. */
  lemma KindsAt(lines: seq<string>, i: nat)
    requires i < |lines|
    ensures Kinds(lines)[i] == Classify(lines[i])
  {
    KindsPrefix(lines, i + 1);
    var p := lines[..i + 1];
    KindsLast(p);
    assert Kinds(lines)[i] == Kinds(lines)[..i + 1][i];
    assert p[i] == lines[i];
  }

  /** Pass 1 over lines of the given kinds, from the bindings `labels`. */
  function ScanKinds(labels: map<string, int>, ks: seq<LineKind>): Scan
    decreases |ks|
  {
    if ks == [] then Scan(labels, 0, None)
    else
      var before := ScanKinds(labels, ks[..|ks| - 1]);
      if before.error.Some? then before else ScanLine(before, ks[|ks| - 1])
  }

  /** `registerLabelAddresses` over `lines`. */
  function ScanLabels(labels: map<string, int>, lines: seq<string>): Scan {
    ScanKinds(labels, Kinds(lines))
  }

  /** The summed widths of lines of the given kinds. */
  function TotalWidth(ks: seq<LineKind>): nat
    decreases |ks|
  {
    if ks == [] then 0 else TotalWidth(ks[..|ks| - 1]) + KindWidth(ks[|ks| - 1])
  }

  /** Pass 1 fails exactly when some line's first word is no mnemonic, and
      otherwise its address is the summed widths of the instruction lines. */
  lemma {:induction false} ScanOutcome(labels: map<string, int>, ks: seq<LineKind>)
    ensures ScanKinds(labels, ks).error.None? <==> forall i :: 0 <= i < |ks| ==> !ks[i].UnknownInstruction?
    ensures ScanKinds(labels, ks).error.None? ==> ScanKinds(labels, ks).address == TotalWidth(ks)
    decreases |ks|
  {
    if ks != [] {
      var init := ks[..|ks| - 1];
      ScanOutcome(labels, init);
      if ScanKinds(labels, init).error.Some? {
        var i :| 0 <= i < |init| && init[i].UnknownInstruction?;
        assert ks[i] == init[i];
      } else {
        forall i | 0 <= i < |init| ensures ks[i] == init[i] { }
      }
    }
  }

  lemma {:induction false} ScanErrorSticks(labels: map<string, int>, a: seq<LineKind>, b: seq<LineKind>)
    requires ScanKinds(labels, a).error.Some?
    ensures ScanKinds(labels, a + b) == ScanKinds(labels, a)
    decreases |b|
  {
    if b == [] {
      assert a + b == a;
    } else {
      assert (a + b)[..|a + b| - 1] == a + b[..|b| - 1];
      ScanErrorSticks(labels, a, b[..|b| - 1]);
    }
  }

  /** One more line of pass 1 while it has not failed. */
  lemma ScanStep(labels: map<string, int>, ks: seq<LineKind>, k: nat)
    requires k < |ks| && ScanKinds(labels, ks[..k]).error.None?
    ensures ScanKinds(labels, ks[..k + 1]) == ScanLine(ScanKinds(labels, ks[..k]), ks[k])
  {
    assert ks[..k + 1][..k] == ks[..k];
  }

  /** Pass 1 stops at the first line that fails. */
  lemma ScanStopsAt(labels: map<string, int>, ks: seq<LineKind>, k: nat)
    requires k <= |ks| && ScanKinds(labels, ks[..k]).error.Some?
    ensures ScanKinds(labels, ks) == ScanKinds(labels, ks[..k])
  {
    assert ks[..k] + ks[k..] == ks;
    ScanErrorSticks(labels, ks[..k], ks[k..]);
  }

  /** When pass 1 does not fail over a sequence of lines it does not fail
      over any prefix. */
  lemma {:induction false} ScanPrefix(labels: map<string, int>, ks: seq<LineKind>, k: nat)
    requires k <= |ks| && ScanKinds(labels, ks).error.None?
    ensures ScanKinds(labels, ks[..k]).error.None?
    decreases |ks|
  {
    if k < |ks| {
      var init := ks[..|ks| - 1];
      assert ScanKinds(labels, init).error.None?;
      ScanPrefix(labels, init, k);
      assert init[..k] == ks[..k];
    } else {
      assert ks[..k] == ks;
    }
  }

  /** A label binds pass 1's address at its line, unless a later line
      defines it again. */
  lemma {:induction false} LabelBinding(l0: map<string, int>, ks: seq<LineKind>, k: nat)
    requires k < |ks| && ks[k].LabelDef?
    requires forall m :: k < m < |ks| ==> ks[m] != ks[k]
    requires ScanKinds(l0, ks).error.None?
    ensures ks[k].name in ScanKinds(l0, ks).labels
    ensures ScanKinds(l0, ks).labels[ks[k].name] == ScanKinds(l0, ks[..k]).address
    decreases |ks|
  {
    var init := ks[..|ks| - 1];
    assert ScanKinds(l0, init).error.None?;
    if k == |ks| - 1 {
      assert init == ks[..k];
    } else {
      assert init[k] == ks[k];
      LabelBinding(l0, init, k);
      assert init[..k] == ks[..k];
    }
  }

  // ---------------------------------------------------------------------
  // Pass 2

  /** The values appended line by line, up to and including the line that
      throws, and that line's error. */
  function Collect(ps: seq<Pushed>): Pushed
    decreases |ps|
  {
    if ps == [] then Pushed([], None)
    else
      var before := Collect(ps[..|ps| - 1]);
      if before.error.Some? then before
      else Pushed(before.values + ps[|ps| - 1].values, ps[|ps| - 1].error)
  }

  /** What each line appends in pass 2. */
  function LinePushes(labels: map<string, int>, lines: seq<string>): (ps: seq<Pushed>)
    ensures |ps| == |lines|
    decreases |lines|
  {
    if lines == [] then [] else LinePushes(labels, lines[..|lines| - 1]) + [LineBytes(labels, lines[|lines| - 1])]
  }

  lemma {:induction false} LinePushesPrefix(labels: map<string, int>, lines: seq<string>, k: nat)
    requires k <= |lines|
    ensures LinePushes(labels, lines)[..k] == LinePushes(labels, lines[..k])
    decreases |lines|
  {
    if k < |lines| {
      var init := lines[..|lines| - 1];
      LinePushesPrefix(labels, init, k);
      assert init[..k] == lines[..k];
    } else {
      assert lines[..k] == lines;
    }
  }

  lemma LinePushesAt(labels: map<string, int>, lines: seq<string>, i: nat)
    requires i < |lines|
    ensures LinePushes(labels, lines)[i] == LineBytes(labels, lines[i])
  {
    LinePushesPrefix(labels, lines, i + 1);
    var p := lines[..i + 1];
    assert p[..i] == lines[..i];
    assert LinePushes(labels, p) == LinePushes(labels, p[..i]) + [LineBytes(labels, p[i])];
    assert LinePushes(labels, p)[i] == LineBytes(labels, p[i]);
  }

  /** Pass 2 over `lines`: the values appended up to the first error, and
      that error. */
  function AssembleLines(labels: map<string, int>, lines: seq<string>): Pushed {
    Collect(LinePushes(labels, lines))
  }

  lemma {:induction false} CollectErrorSticks(a: seq<Pushed>, b: seq<Pushed>)
    requires Collect(a).error.Some?
    ensures Collect(a + b) == Collect(a)
    decreases |b|
  {
    if b == [] {
      assert a + b == a;
    } else {
      assert (a + b)[..|a + b| - 1] == a + b[..|b| - 1];
      CollectErrorSticks(a, b[..|b| - 1]);
    }
  }

  /** One more line of pass 2 while it has not failed. */
  lemma CollectStep(ps: seq<Pushed>, k: nat)
    requires k < |ps| && Collect(ps[..k]).error.None?
    ensures Collect(ps[..k + 1]) == Pushed(Collect(ps[..k]).values + ps[k].values, ps[k].error)
  {
    assert ps[..k + 1][..k] == ps[..k];
  }

  /** Pass 2 stops at the first line that fails. */
  lemma CollectStopsAt(ps: seq<Pushed>, k: nat)
    requires k <= |ps| && Collect(ps[..k]).error.Some?
    ensures Collect(ps) == Collect(ps[..k])
  {
    assert ps[..k] + ps[k..] == ps;
    CollectErrorSticks(ps[..k], ps[k..]);
  }

  /** Pass 2 over a prefix appends a prefix of what it appends over the
      whole. */
  lemma {:induction false} CollectPrefix(ps: seq<Pushed>, k: nat)
    requires k <= |ps|
    ensures |Collect(ps[..k]).values| <= |Collect(ps).values|
    ensures Collect(ps).values[..|Collect(ps[..k]).values|] == Collect(ps[..k]).values
    decreases |ps|
  {
    if k < |ps| {
      var init := ps[..|ps| - 1];
      CollectPrefix(init, k);
      assert init[..k] == ps[..k];
    } else {
      assert ps[..k] == ps;
    }
  }

  /** `new Uint8Array(program)` */
  function ToBytes(values: seq<int>): (b: seq<Byte>)
    ensures |b| == |values| && forall i :: 0 <= i < |values| ==> b[i] == C.ToByte(values[i])
  {
    seq(|values|, i requires 0 <= i < |values| => C.ToByte(values[i]))
  }

  // ---------------------------------------------------------------------
  // The two passes agree

  /** No mnemonic ends in ":", so a first word ending in ":" is never a
      known instruction. */
  lemma MnemonicIsNoLabel(word: string)
    ensures C.OpcodeByName(word).Some? ==> !EndsWith(word, ":")
  {
  }

  /** Every line that pass 1 accepts and pass 2 assembles appends exactly
      the width pass 1 counted for it. */
  lemma LineWidthAgrees(labels: map<string, int>, line: string)
    requires !Classify(line).UnknownInstruction? && LineBytes(labels, line).error.None?
    ensures |LineBytes(labels, line).values| == KindWidth(Classify(line))
  {
    var k := Classify(line);
    if k.Instruction? {
      var t := Trim(line);
      var words := SplitSpaces(t);
      ClassifyInstruction(line);
      MnemonicIsNoLabel(words[0]);
      assert !IsSkipped(t);
      assert LineBytes(labels, line) == ParseInstruction(labels, words);
    }
  }

  /** Lines whose widths agree, line by line, keep the pass-1 address equal
      to the length of the pass-2 output. */
  lemma {:induction false} AddressIsLength(l0: map<string, int>, ks: seq<LineKind>, ps: seq<Pushed>)
    requires |ks| == |ps|
    requires forall i :: 0 <= i < |ks| && !ks[i].UnknownInstruction? && ps[i].error.None? ==> |ps[i].values| == KindWidth(ks[i])
    requires ScanKinds(l0, ks).error.None? && Collect(ps).error.None?
    ensures ScanKinds(l0, ks).address == |Collect(ps).values|
    decreases |ks|
  {
    if ks != [] {
      var n := |ks| - 1;
      assert ScanKinds(l0, ks[..n]).error.None?;
      assert Collect(ps[..n]).error.None?;
      AddressIsLength(l0, ks[..n], ps[..n]);
      assert !ks[n].UnknownInstruction?;
    }
  }

  /** The running address of pass 1 is the length of what pass 2 has
      appended, whatever labels pass 2 reads. */
  lemma AddressIsOffset(l0: map<string, int>, labels: map<string, int>, lines: seq<string>)
    requires ScanLabels(l0, lines).error.None? && AssembleLines(labels, lines).error.None?
    ensures ScanLabels(l0, lines).address == |AssembleLines(labels, lines).values|
  {
    var ks := Kinds(lines);
    var ps := LinePushes(labels, lines);
    forall i | 0 <= i < |ks| && !ks[i].UnknownInstruction? && ps[i].error.None?
      ensures |ps[i].values| == KindWidth(ks[i])
    {
      KindsAt(lines, i);
      LinePushesAt(labels, lines, i);
      LineWidthAgrees(labels, lines[i]);
    }
    AddressIsLength(l0, ks, ps);
  }

  /** The label addresses of pass 1 are true offsets into the output of
      pass 2: the code at a label's address is the code of the lines after
      its definition. */
  lemma LabelsAreOffsets(l0: map<string, int>, lines: seq<string>, k: nat)
    requires k < |lines| && Classify(lines[k]).LabelDef?
    requires forall m :: k < m < |lines| ==> Classify(lines[m]) != Classify(lines[k])
    requires ScanLabels(l0, lines).error.None?
    requires AssembleLines(ScanLabels(l0, lines).labels, lines[..k]).error.None?
    ensures var labels := ScanLabels(l0, lines).labels;
      var name := Classify(lines[k]).name;
      var part := AssembleLines(labels, lines[..k]).values;
      var whole := AssembleLines(labels, lines).values;
      name in labels && labels[name] == |part| <= |whole| && whole[..labels[name]] == part
  {
    var labels := ScanLabels(l0, lines).labels;
    var ks := Kinds(lines);
    var ps := LinePushes(labels, lines);
    KindsAt(lines, k);
    forall m | k < m < |ks| ensures ks[m] != ks[k] {
      KindsAt(lines, m);
    }
    LabelBinding(l0, ks, k);
    ScanPrefix(l0, ks, k);
    KindsPrefix(lines, k);
    LinePushesPrefix(labels, lines, k);
    AddressIsOffset(l0, labels, lines[..k]);
    CollectPrefix(ps, k);
  }

  /** With the pass-2 label test as written the passes disagree: pass 1
      binds "halt a:" as the label "halt a" and counts no width for it, but
      pass 2 emits a halt for it, so every later label is bound one byte
      short of its code. */
  lemma LabelTestsDisagree()
    ensures Classify("halt a:") == LabelDef("halt a")
    ensures LineBytesAsWritten(map[], "halt a:") == Pushed([C.OpcodeCode(C.Halt) as int], None)
    ensures LineBytes(map[], "halt a:") == Pushed([], None)
  {
    var s := "halt a:";
    HaltLabelLineWords();
    hide Trim, SplitSpaces;
    var words := SplitSpaces(s);
    assert !EndsWith("halt", ":");
    assert !IsSkipped(s);
    assert ParseInstruction(map[], words) == Pushed([C.OpcodeCode(C.Halt) as int], None);
  }

  /** "halt a:" is already trimmed, and its first word is "halt". */
  lemma HaltLabelLineWords()
    ensures Trim("halt a:") == "halt a:"
    ensures SplitSpaces("halt a:") != [] && SplitSpaces("halt a:")[0] == "halt"
  {
    var s := "halt a:";
    assert TrimStart(s) == s;
    assert TrimEnd(s) == s;
    assert FirstSpace(s, 4) == 4;
    assert FirstSpace(s, 3) == 4;
    assert FirstSpace(s, 2) == 4;
    assert FirstSpace(s, 1) == 4;
    assert FirstSpace(s, 0) == 4;
    assert SkipSpaces(s, 5) == 5;
    assert SkipSpaces(s, 4) == 5;
    assert s[..4] == "halt";
  }

  // ---------------------------------------------------------------------
  // The assembler object

  /** What a fresh assembler's `run(source)` returns. */
  function AssembleSource(source: string): Result<seq<Byte>, string> {
    var lines := Split(source, '\n');
    var scan := ScanLabels(map[], lines);
    if scan.error.Some? then Err(scan.error.value)
    else
      var out := AssembleLines(scan.labels, lines);
      if out.error.Some? then Err(out.error.value) else Ok(ToBytes(out.values))
  }

  class Assembler {
    var program: seq<int>
    var labels: map<string, int>

    constructor()
      ensures program == [] && labels == map[]
    {
      program := [];
      labels := map[];
    }

    /** Pass 1: each line in turn, stopping at the first unknown
        instruction. */
    method RegisterLabelAddresses(source: string) returns (error: Option<string>)
      modifies this
      ensures var scan := ScanLabels(old(labels), Split(source, '\n'));
        labels == scan.labels && error == scan.error && program == old(program)
    {
      hide Trim, SplitSpaces, C.OpcodeByName;
      var lines := Split(source, '\n');
      ghost var ks := Kinds(lines);
      assert ScanKinds(old(labels), ks[..0]) == Scan(labels, 0, None) by {
        assert ks[..0] == [];
      }
      hide Kinds, ScanKinds, Classify;
      var address := 0;
      var k := 0;
      while k < |lines|
        invariant 0 <= k <= |lines| && program == old(program)
        invariant ScanKinds(old(labels), ks[..k]) == Scan(labels, address, None)
      {
        KindsAt(lines, k);
        ScanStep(old(labels), ks, k);
        address, error := RegisterLine(lines[k], address);
        if error.Some? {
          ScanStopsAt(old(labels), ks, k + 1);
          return;
        }
        k := k + 1;
      }
      assert ks[..k] == ks;
      error := None;
    }

    /** The body of pass 1's loop for one line at `address`: binds a label
        to the address, moves the address past an instruction, and reports
        an unknown instruction. */
    method RegisterLine(line: string, address: int) returns (next: int, error: Option<string>)
      modifies this
      ensures program == old(program)
      ensures Scan(labels, next, error) == ScanLine(Scan(old(labels), address, None), Classify(line))
    {
      hide Trim, SplitSpaces, C.OpcodeByName;
      next := address;
      error := None;
      var t := Trim(line);
      if t == [] {
      } else if EndsWith(t, ":") {
        labels := labels[t[..|t| - 1] := address];
      } else if StartsWith(t, "//") {
      } else {
        var instruction := SplitSpaces(t)[0];
        var opcode := C.OpcodeByName(instruction);
        if opcode.None? {
          error := Some("encountered unknown instruction: " + instruction);
        } else {
          next := address + C.Width(opcode.value);
        }
      }
    }

    /** `parseLine(line)`: appends the line's bytes to `program`, and
        reports the error it throws, if any, after appending them. */
    method ParseLine(line: string) returns (error: Option<string>)
      modifies this
      ensures labels == old(labels)
      ensures program == old(program) + LineBytes(labels, line).values
      ensures error == LineBytes(labels, line).error
    {
      var pushed := LineBytes(labels, line);
      program := program + pushed.values;
      error := pushed.error;
    }

    /** The loop of `run` over the lines: `parseLine` on each in turn,
        stopping at the first that throws. */
    method ParseLines(lines: seq<string>) returns (error: Option<string>)
      modifies this
      ensures labels == old(labels)
      ensures program == old(program) + AssembleLines(labels, lines).values
      ensures error == AssembleLines(labels, lines).error
    {
      hide LineBytes, LineBytesAsWritten, ParseInstruction, Classify, LinePushes, Trim, SplitSpaces;
      ghost var start := program;
      ghost var ps := LinePushes(labels, lines);
      ghost var appended: seq<int> := [];
      var k := 0;
      while k < |lines|
        invariant 0 <= k <= |lines| && labels == old(labels)
        invariant program == start + appended
        invariant Collect(ps[..k]) == Pushed(appended, None)
      {
        LinePushesAt(labels, lines, k);
        error := ParseLine(lines[k]);
        CollectStep(ps, k);
        appended := appended + ps[k].values;
        if error.Some? {
          CollectStopsAt(ps, k + 1);
          return;
        }
        k := k + 1;
      }
      assert ps[..k] == ps;
      error := None;
    }

    /** `run(source)`: pass 1, then pass 2; the result is the whole
        `program` as bytes, including what earlier runs left there. */
    method Run(source: string) returns (r: Result<seq<Byte>, string>)
      modifies this
      ensures var lines := Split(source, '\n');
        var scan := ScanLabels(old(labels), lines);
        labels == scan.labels &&
        if scan.error.Some? then r == Err(scan.error.value) && program == old(program)
        else
          var out := AssembleLines(labels, lines);
          program == old(program) + out.values &&
          r == (if out.error.Some? then Err(out.error.value) else Ok(ToBytes(program)))
    {
      hide LineBytes, Classify, Kinds, LinePushes, ScanLabels, Split, ToBytes, AssembleLines;
      var lines := Split(source, '\n');
      var error := RegisterLabelAddresses(source);
      if error.Some? {
        return Err(error.value);
      }
      error := ParseLines(lines);
      if error.Some? {
        return Err(error.value);
      }
      r := Ok(ToBytes(program));
    }
  }
}
