/** The older instruction table (opcode.ts) that the virtual machine and
    the two disassemblers decode with. Its Register, AddressType,
    OffsetType and OffsetSign enumerations are numbered exactly as in
    core/opcode.ts, so those are shared with `CoreOpcode`; the opcode
    numbering is its own, and departs from the newer one at 10. */
module LegacyOpcode {
  import opened Wrappers
  import C = CoreOpcode

  datatype Opcode =
    | Halt
    | Set | Peek | Poke
    | Add | Subtract | Multiply | Divide | ShiftLeft | ShiftRight
    | And | Or | Not
    | Jump | JumpIfZero | JumpIfNotZero
    | Call | Return
    | Push | Pop

  /** The enumeration numbers, 0 to 19 in declaration order. */
  function Code(op: Opcode): C.Byte {
    match op
    case Halt => 0
    case Set => 1
    case Peek => 2
    case Poke => 3
    case Add => 4
    case Subtract => 5
    case Multiply => 6
    case Divide => 7
    case ShiftLeft => 8
    case ShiftRight => 9
    case And => 10
    case Or => 11
    case Not => 12
    case Jump => 13
    case JumpIfZero => 14
    case JumpIfNotZero => 15
    case Call => 16
    case Return => 17
    case Push => 18
    case Pop => 19
  }

  /** `Opcode[b]` read as a member: the opcode a byte stands for, None for
      a byte outside the enumeration. */
  function FromCode(b: int): (r: Option<Opcode>)
    ensures r.Some? <==> 0 <= b < 20
    ensures r.Some? ==> Code(r.value) == b
  {
    if b == 0 then Some(Halt)
    else if b == 1 then Some(Set)
    else if b == 2 then Some(Peek)
    else if b == 3 then Some(Poke)
    else if b == 4 then Some(Add)
    else if b == 5 then Some(Subtract)
    else if b == 6 then Some(Multiply)
    else if b == 7 then Some(Divide)
    else if b == 8 then Some(ShiftLeft)
    else if b == 9 then Some(ShiftRight)
    else if b == 10 then Some(And)
    else if b == 11 then Some(Or)
    else if b == 12 then Some(Not)
    else if b == 13 then Some(Jump)
    else if b == 14 then Some(JumpIfZero)
    else if b == 15 then Some(JumpIfNotZero)
    else if b == 16 then Some(Call)
    else if b == 17 then Some(Return)
    else if b == 18 then Some(Push)
    else if b == 19 then Some(Pop)
    else None
  }

  lemma CodeRoundTrip(op: Opcode)
    ensures FromCode(Code(op)) == Some(op)
  {
  }

  /** The enumeration member's name, `Opcode[op]`, as the disassemblers
      print it. */
  function Name(op: Opcode): string {
    match op
    case Halt => "Halt"
    case Set => "Set"
    case Peek => "Peek"
    case Poke => "Poke"
    case Add => "Add"
    case Subtract => "Subtract"
    case Multiply => "Multiply"
    case Divide => "Divide"
    case ShiftLeft => "ShiftLeft"
    case ShiftRight => "ShiftRight"
    case And => "And"
    case Or => "Or"
    case Not => "Not"
    case Jump => "Jump"
    case JumpIfZero => "JumpIfZero"
    case JumpIfNotZero => "JumpIfNotZero"
    case Call => "Call"
    case Return => "Return"
    case Push => "Push"
    case Pop => "Pop"
  }

  /** Distinct opcodes print under distinct names. */
  lemma NamesDistinct(op1: Opcode, op2: Opcode)
    ensures Name(op1) == Name(op2) <==> op1 == op2
  {
  }

  /** The mnemonic of each opcode in this table's lookup. */
  function Mnemonic(op: Opcode): string {
    match op
    case Halt => "halt"
    case Set => "set"
    case Peek => "peek"
    case Poke => "poke"
    case Add => "+"
    case Subtract => "-"
    case Multiply => "*"
    case Divide => "/"
    case ShiftLeft => "<<"
    case ShiftRight => ">>"
    case And => "&"
    case Or => "|"
    case Not => "~"
    case Jump => "jump"
    case JumpIfZero => "jump==0"
    case JumpIfNotZero => "jump!=0"
    case Call => "call"
    case Return => "return"
    case Push => "push"
    case Pop => "pop"
  }

  /** `opcodeByInstructionNameLookup[name]` of this table. */
  function OpcodeByName(name: string): Option<Opcode> {
    match name
    case "halt" => Some(Halt)
    case "set" => Some(Set)
    case "peek" => Some(Peek)
    case "poke" => Some(Poke)
    case "+" => Some(Add)
    case "-" => Some(Subtract)
    case "*" => Some(Multiply)
    case "/" => Some(Divide)
    case "<<" => Some(ShiftLeft)
    case ">>" => Some(ShiftRight)
    case "&" => Some(And)
    case "|" => Some(Or)
    case "~" => Some(Not)
    case "jump" => Some(Jump)
    case "jump==0" => Some(JumpIfZero)
    case "jump!=0" => Some(JumpIfNotZero)
    case "call" => Some(Call)
    case "return" => Some(Return)
    case "push" => Some(Push)
    case "pop" => Some(Pop)
    case _ => None
  }

  /** The lookup is one-to-one: each of the 20 mnemonics names its own
      opcode, and no other string names one. */
  lemma MnemonicsOneToOne(op: Opcode, name: string)
    ensures OpcodeByName(Mnemonic(op)) == Some(op)
    ensures OpcodeByName(name) == Some(op) <==> name == Mnemonic(op)
  {
  }

  /** `instructionWidth[op]` of this table. */
  function Width(op: Opcode): nat {
    match op
    case Halt => 1
    case Set => 4
    case Peek => 7
    case Poke => 7
    case Add => 4
    case Subtract => 4
    case Multiply => 4
    case Divide => 4
    case ShiftLeft => 4
    case ShiftRight => 4
    case And => 4
    case Or => 4
    case Not => 4
    case Jump => 3
    case JumpIfZero => 3
    case JumpIfNotZero => 3
    case Call => 3
    case Return => 1
    case Push => 3
    case Pop => 1
  }

  /** The same instruction in the newer table: the one with the same
      mnemonic. */
  function ToCore(op: Opcode): (c: C.Opcode)
    ensures C.Mnemonic(c) == Mnemonic(op)
  {
    match op
    case Halt => C.Halt
    case Set => C.Set
    case Peek => C.Peek
    case Poke => C.Poke
    case Add => C.Add
    case Subtract => C.Subtract
    case Multiply => C.Multiply
    case Divide => C.Divide
    case ShiftLeft => C.ShiftLeft
    case ShiftRight => C.ShiftRight
    case And => C.And
    case Or => C.Or
    case Not => C.Not
    case Jump => C.Jump
    case JumpIfZero => C.JumpIfZero
    case JumpIfNotZero => C.JumpIfNotZero
    case Call => C.Call
    case Return => C.Return
    case Push => C.Push
    case Pop => C.Pop
  }

  /** Every instruction has the width it has in the newer table, except
      Pop, which is one byte here and two there; the newer table's
      EqualTo, NotEqualTo and SysCall have no counterpart here. */
  lemma WidthsAgreeExceptPop(op: Opcode)
    ensures op != Pop ==> Width(op) == C.Width(ToCore(op))
    ensures Width(Pop) == 1 && C.Width(C.Pop) == 2
    ensures ToCore(op) !in {C.EqualTo, C.NotEqualTo, C.SysCall}
  {
  }

  /** The two numberings agree below 10 and disagree from 10 on: the byte
      an assembler emits for an opcode from `&` up decodes here as a
      different instruction, or as none. */
  lemma NumberingsDiverge(op: Opcode)
    ensures Code(op) < 10 <==> C.OpcodeCode(ToCore(op)) == Code(op)
    ensures Code(op) >= 10 ==> FromCode(C.OpcodeCode(ToCore(op))) != Some(op)
    ensures C.OpcodeFromCode(10) == Some(C.EqualTo) && FromCode(10) == Some(And)
  {
  }
}
