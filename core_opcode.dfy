/** The instruction set used by both assemblers (core/opcode.ts): the
    enumerations and their numbering, the mnemonic and register-name
    lookups, the fixed width of every opcode, the instruction table, and
    the byte encoders. Every encoder yields the bytes of a `Uint8Array`,
    so each element is stored modulo 256. */
module CoreOpcode {
  import opened Wrappers

  /** An element of a `Uint8Array`. */
  type Byte = b: int | 0 <= b < 256

  /** Storing an integer into a `Uint8Array` keeps it modulo 256. */
  function ToByte(v: int): (b: Byte)
    ensures 0 <= v < 256 ==> b == v
    ensures (v - b) % 256 == 0
  {
    v % 256
  }

  /** `v & 0xff`. The bitwise operator works on the 32-bit two's-complement
      form of `v`, whose low eight bits are those of `v` itself, so for
      every integer this is `v` modulo 256. */
  function LowByte(v: int): Byte {
    v % 256
  }

  /** `(v & 0xff00) >> 8`: bits 8 to 15 of `v`, for every integer. */
  function HighByte(v: int): Byte {
    (v / 256) % 256
  }

  /** Big-endian splitting: `(h << 8) + l` gives back the address modulo
      65536, so exactly for every address in 0..65535. */
  lemma BigEndianRoundTrip(v: int)
    ensures HighByte(v) * 256 + LowByte(v) == v % 65536
    ensures 0 <= v < 65536 ==> HighByte(v) * 256 + LowByte(v) == v
  {
    var q := v / 256;
    var r := v % 256;
    assert v == q * 256 + r;
    var qq := q / 256;
    var qr := q % 256;
    assert q == qq * 256 + qr;
    assert v == qq * 65536 + (qr * 256 + r);
    assert 0 <= qr * 256 + r < 65536;
  }

  datatype OperandType = LiteralOperand | RegisterOperand | AddressOperand

  function OperandTypeCode(t: OperandType): Byte {
    match t
    case LiteralOperand => 0
    case RegisterOperand => 1
    case AddressOperand => 2
  }

  datatype Register = A | X | Y | XY | IP | SP | FP

  /** The `Register` enumeration numbers. */
  function RegisterCode(r: Register): Byte {
    match r
    case A => 0
    case X => 1
    case Y => 2
    case XY => 3
    case IP => 4
    case SP => 5
    case FP => 6
  }

  /** The inverse of the numbering; None for a byte that names no register. */
  function RegisterFromCode(b: int): (r: Option<Register>)
    ensures r.Some? <==> 0 <= b < 7
    ensures r.Some? ==> RegisterCode(r.value) == b
  {
    if b == 0 then Some(A)
    else if b == 1 then Some(X)
    else if b == 2 then Some(Y)
    else if b == 3 then Some(XY)
    else if b == 4 then Some(IP)
    else if b == 5 then Some(SP)
    else if b == 6 then Some(FP)
    else None
  }

  lemma RegisterCodeRoundTrip(r: Register)
    ensures RegisterFromCode(RegisterCode(r)) == Some(r)
  {
  }

  /** `RegisterName[r]`: the name a register is written with. */
  function RegisterName(r: Register): string {
    match r
    case A => "a"
    case X => "x"
    case Y => "y"
    case XY => "xy"
    case IP => "ip"
    case SP => "sp"
    case FP => "fp"
  }

  /** `registerByNameLookup[name]`, None where the lookup is undefined. */
  function RegisterByName(name: string): Option<Register> {
    match name
    case "a" => Some(A)
    case "x" => Some(X)
    case "y" => Some(Y)
    case "xy" => Some(XY)
    case "ip" => Some(IP)
    case "sp" => Some(SP)
    case "fp" => Some(FP)
    case _ => None
  }

  /** The name lookup and the register names are inverse: every register
      is found by its name, and a string names a register only when it is
      that register's name. */
  lemma RegisterNamesOneToOne(r: Register, name: string)
    ensures RegisterByName(RegisterName(r)) == Some(r)
    ensures RegisterByName(name) == Some(r) <==> name == RegisterName(r)
  {
  }

  datatype Opcode =
    | Halt
    | Set | Peek | Poke
    | Add | Subtract | Multiply | Divide | ShiftLeft | ShiftRight
    | EqualTo | NotEqualTo | And | Or | Not
    | Jump | JumpIfZero | JumpIfNotZero
    | Call | Return
    | Push | Pop
    | SysCall

  /** The `Opcode` enumeration numbers, 0 to 22 in declaration order. */
  function OpcodeCode(op: Opcode): Byte {
    match op
    case Halt => 0
    case Set => 1
    case Peek => 2
    case Poke => 3
    case Add => 4
    case Subtract => 5
    case Multiply => 6
    case Divide => 7
    case ShiftLeft => 8
    case ShiftRight => 9
    case EqualTo => 10
    case NotEqualTo => 11
    case And => 12
    case Or => 13
    case Not => 14
    case Jump => 15
    case JumpIfZero => 16
    case JumpIfNotZero => 17
    case Call => 18
    case Return => 19
    case Push => 20
    case Pop => 21
    case SysCall => 22
  }

  /** The opcode a byte stands for in this numbering, if any. */
  function OpcodeFromCode(b: int): (r: Option<Opcode>)
    ensures r.Some? <==> 0 <= b < 23
    ensures r.Some? ==> OpcodeCode(r.value) == b
  {
    if b == 0 then Some(Halt)
    else if b == 1 then Some(Set)
    else if b == 2 then Some(Peek)
    else if b == 3 then Some(Poke)
    else if b == 4 then Some(Add)
    else if b == 5 then Some(Subtract)
    else if b == 6 then Some(Multiply)
    else if b == 7 then Some(Divide)
    else if b == 8 then Some(ShiftLeft)
    else if b == 9 then Some(ShiftRight)
    else if b == 10 then Some(EqualTo)
    else if b == 11 then Some(NotEqualTo)
    else if b == 12 then Some(And)
    else if b == 13 then Some(Or)
    else if b == 14 then Some(Not)
    else if b == 15 then Some(Jump)
    else if b == 16 then Some(JumpIfZero)
    else if b == 17 then Some(JumpIfNotZero)
    else if b == 18 then Some(Call)
    else if b == 19 then Some(Return)
    else if b == 20 then Some(Push)
    else if b == 21 then Some(Pop)
    else if b == 22 then Some(SysCall)
    else None
  }

  lemma OpcodeCodeRoundTrip(op: Opcode)
    ensures OpcodeFromCode(OpcodeCode(op)) == Some(op)
  {
  }

  /** The mnemonic of each opcode, the keys of
      `opcodeByInstructionNameLookup`. */
  function Mnemonic(op: Opcode): string {
    match op
    case Halt => "halt"
    case Set => "set"
    case Peek => "peek"
    case Poke => "poke"
    case Add => "+"
    case Subtract => "-"
    case Multiply => "*"
    case Divide => "/"
    case ShiftLeft => "<<"
    case ShiftRight => ">>"
    case EqualTo => "=="
    case NotEqualTo => "!="
    case And => "&"
    case Or => "|"
    case Not => "~"
    case Jump => "jump"
    case JumpIfZero => "jump==0"
    case JumpIfNotZero => "jump!=0"
    case Call => "call"
    case Return => "return"
    case Push => "push"
    case Pop => "pop"
    case SysCall => "syscall"
  }

  /** `opcodeByInstructionNameLookup[name]`, None where it is undefined. */
  function OpcodeByName(name: string): Option<Opcode> {
    match name
    case "halt" => Some(Halt)
    case "set" => Some(Set)
    case "peek" => Some(Peek)
    case "poke" => Some(Poke)
    case "+" => Some(Add)
    case "-" => Some(Subtract)
    case "*" => Some(Multiply)
    case "/" => Some(Divide)
    case "<<" => Some(ShiftLeft)
    case ">>" => Some(ShiftRight)
    case "==" => Some(EqualTo)
    case "!=" => Some(NotEqualTo)
    case "&" => Some(And)
    case "|" => Some(Or)
    case "~" => Some(Not)
    case "jump" => Some(Jump)
    case "jump==0" => Some(JumpIfZero)
    case "jump!=0" => Some(JumpIfNotZero)
    case "call" => Some(Call)
    case "return" => Some(Return)
    case "push" => Some(Push)
    case "pop" => Some(Pop)
    case "syscall" => Some(SysCall)
    case _ => None
  }

  /** The mnemonic lookup and the mnemonics are inverse: every opcode is
      found by its mnemonic, and a string is looked up to an opcode only
      when it is that opcode's mnemonic. */
  lemma MnemonicsOneToOne(op: Opcode, name: string)
    ensures OpcodeByName(Mnemonic(op)) == Some(op)
    ensures OpcodeByName(name) == Some(op) <==> name == Mnemonic(op)
  {
    MnemonicFound(op);
    LookupIsMnemonic(name);
  }

  /** Every opcode is found by its mnemonic. */
  lemma MnemonicFound(op: Opcode)
    ensures OpcodeByName(Mnemonic(op)) == Some(op)
  {
    match op
    case Halt => case Set => case Peek => case Poke =>
    case Add => case Subtract => case Multiply => case Divide =>
    case ShiftLeft => case ShiftRight => case EqualTo => case NotEqualTo =>
    case And => case Or => case Not =>
    case Jump => case JumpIfZero => case JumpIfNotZero =>
    case Call => case Return => case Push => case Pop => case SysCall =>
  }

  /** A name found in the lookup is the mnemonic of what it finds. */
  lemma LookupIsMnemonic(name: string)
    ensures OpcodeByName(name).Some? ==> Mnemonic(OpcodeByName(name).value) == name
  {
    match name
    case "halt" => case "set" => case "peek" => case "poke" =>
    case "+" => case "-" => case "*" => case "/" =>
    case "<<" => case ">>" => case "==" => case "!=" =>
    case "&" => case "|" => case "~" =>
    case "jump" => case "jump==0" => case "jump!=0" =>
    case "call" => case "return" => case "push" => case "pop" => case "syscall" =>
    case _ =>
  }

  predicate IsMemoryAccess(op: Opcode) {
    op == Peek || op == Poke
  }

  predicate IsArithmeticLogic(op: Opcode) {
    op in {Add, Subtract, Multiply, Divide, ShiftLeft, ShiftRight, EqualTo, NotEqualTo, And, Or, Not}
  }

  predicate IsBranching(op: Opcode) {
    op == Call || op == Jump || op == JumpIfZero || op == JumpIfNotZero
  }

  /** `instructionWidth[op]`: the fixed number of bytes of an encoded
      instruction. */
  function Width(op: Opcode): nat {
    match op
    case Halt => 1
    case Set => 4
    case Peek => 7
    case Poke => 7
    case Add => 4
    case Subtract => 4
    case Multiply => 4
    case Divide => 4
    case ShiftLeft => 4
    case ShiftRight => 4
    case EqualTo => 4
    case NotEqualTo => 4
    case And => 4
    case Or => 4
    case Not => 4
    case Jump => 3
    case JumpIfZero => 3
    case JumpIfNotZero => 3
    case Call => 3
    case Return => 1
    case Push => 3
    case Pop => 2
    case SysCall => 2
  }

  /** The widths by instruction family: Halt and Return 1; Pop and SysCall
      2; the four branches and Push 3; Set and the 11 arithmetic/logic
      opcodes 4; Peek and Poke 7. */
  lemma WidthsByFamily(op: Opcode)
    ensures Width(op) == 1 <==> op == Halt || op == Return
    ensures Width(op) == 2 <==> op == Pop || op == SysCall
    ensures Width(op) == 3 <==> IsBranching(op) || op == Push
    ensures Width(op) == 4 <==> op == Set || IsArithmeticLogic(op)
    ensures Width(op) == 7 <==> IsMemoryAccess(op)
    ensures Width(op) in {1, 2, 3, 4, 7}
  {
  }

  datatype OperandDefinition = OperandDefinition(validTypes: seq<OperandType>, canHaveOffset: bool, optional: bool)

  datatype InstructionDefinition = InstructionDefinition(opcode: Opcode, operands: seq<OperandDefinition>, width: nat)

  function Operand1(validTypes: seq<OperandType>): OperandDefinition {
    OperandDefinition(validTypes, false, false)
  }

  const ArithmeticLogicOperands: seq<OperandDefinition> :=
    [Operand1([RegisterOperand]), Operand1([RegisterOperand, LiteralOperand])]

  const MemoryOperands: seq<OperandDefinition> :=
    [OperandDefinition([RegisterOperand, AddressOperand, LiteralOperand], true, false)]

  const BranchOperands: seq<OperandDefinition> := [Operand1([AddressOperand, RegisterOperand])]

  function Definition(op: Opcode, operands: seq<OperandDefinition>): InstructionDefinition {
    InstructionDefinition(op, operands, Width(op))
  }

  /** `instructions[name]`, None where it is undefined. The `syscall` entry
      records `Opcode.Pop` and Pop's width, as the table is written. */
  function InstructionByName(name: string): Option<InstructionDefinition> {
    match name
    case "halt" => Some(Definition(Halt, []))
    case "set" => Some(Definition(Set, [Operand1([RegisterOperand]), Operand1([RegisterOperand, LiteralOperand])]))
    case "peek" => Some(Definition(Peek, MemoryOperands))
    case "poke" => Some(Definition(Poke, MemoryOperands))
    case "+" => Some(Definition(Add, ArithmeticLogicOperands))
    case "-" => Some(Definition(Subtract, ArithmeticLogicOperands))
    case "*" => Some(Definition(Multiply, ArithmeticLogicOperands))
    case "/" => Some(Definition(Divide, ArithmeticLogicOperands))
    case "<<" => Some(Definition(ShiftLeft, ArithmeticLogicOperands))
    case ">>" => Some(Definition(ShiftRight, ArithmeticLogicOperands))
    case "==" => Some(Definition(EqualTo, ArithmeticLogicOperands))
    case "!=" => Some(Definition(NotEqualTo, ArithmeticLogicOperands))
    case "&" => Some(Definition(And, ArithmeticLogicOperands))
    case "|" => Some(Definition(Or, ArithmeticLogicOperands))
    case "~" => Some(Definition(Not, ArithmeticLogicOperands))
    case "jump" => Some(Definition(Jump, BranchOperands))
    case "jump==0" => Some(Definition(JumpIfZero, BranchOperands))
    case "jump!=0" => Some(Definition(JumpIfNotZero, BranchOperands))
    case "call" => Some(Definition(Call, [OperandDefinition([AddressOperand, RegisterOperand], true, false)]))
    case "return" => Some(Definition(Return, []))
    case "push" => Some(Definition(Push, [Operand1([LiteralOperand, RegisterOperand])]))
    case "pop" => Some(Definition(Pop, [OperandDefinition([RegisterOperand], false, true)]))
    case "syscall" => Some(Definition(Pop, [Operand1([LiteralOperand])]))
    case _ => None
  }

  /** The instruction table has an entry exactly for the mnemonics; every
      entry's width is the width of its mnemonic's opcode, and its opcode
      is that opcode except for `syscall`, which records Pop. */
  lemma InstructionTableAgrees(name: string)
    ensures InstructionByName(name).Some? <==> OpcodeByName(name).Some?
    ensures InstructionByName(name).Some? && name != "syscall" ==>
      InstructionByName(name).value.opcode == OpcodeByName(name).value &&
      InstructionByName(name).value.width == Width(OpcodeByName(name).value)
    ensures name == "syscall" ==>
      InstructionByName(name).value.opcode == Pop &&
      InstructionByName(name).value.width == Width(SysCall)
  {
    match name
    case "halt" => case "set" => case "peek" => case "poke" =>
    case "+" => case "-" => case "*" => case "/" =>
    case "<<" => case ">>" => case "==" => case "!=" =>
    case "&" => case "|" => case "~" =>
    case "jump" => case "jump==0" => case "jump!=0" =>
    case "call" => case "return" => case "push" => case "pop" => case "syscall" =>
    case _ =>
  }

  datatype AddressType = LiteralAddress | RegisterAddress
  datatype OffsetType = LiteralOffset | RegisterOffset
  datatype OffsetSign = Plus | Minus

  function AddressTypeCode(t: AddressType): Byte {
    match t
    case LiteralAddress => 0
    case RegisterAddress => 1
  }

  function OffsetTypeCode(t: OffsetType): Byte {
    match t
    case LiteralOffset => 0
    case RegisterOffset => 1
  }

  function OffsetSignCode(s: OffsetSign): Byte {
    match s
    case Plus => 0
    case Minus => 1
  }

  /** An offset `{type, sign, value}`; the value is a literal or a
      register number and is stored as a byte when encoded. */
  datatype Offset = Offset(kind: OffsetType, sign: OffsetSign, value: int)

  /** `emptyOffset()` */
  function EmptyOffset(): Offset {
    Offset(LiteralOffset, Plus, 0)
  }

  /** The address part of `MemoryAccessInstructionOperands`. */
  datatype MemoryAddress = RegisterAt(register: Register) | LiteralAt(address: int)

  function EncodeOffset(o: Offset): (b: seq<Byte>)
    ensures |b| == 3
  {
    [OffsetTypeCode(o.kind), OffsetSignCode(o.sign), ToByte(o.value)]
  }

  /** The empty offset encodes as three zero bytes: Literal, Plus, 0. */
  lemma EmptyOffsetEncoding()
    ensures EncodeOffset(EmptyOffset()) == [0, 0, 0]
  {
  }

  /** `encodeMemoryAccessInstruction(opcode, operands)`: always 7 bytes,
      `[op, Register, reg, 0, offType, offSign, offVal]` for a register
      address and `[op, Literal, h, l, offType, offSign, offVal]` for a
      literal one. */
  function EncodeMemoryAccess(op: Opcode, address: MemoryAddress, offset: Offset): (b: seq<Byte>)
    requires IsMemoryAccess(op)
    ensures |b| == 7 == Width(op)
    ensures b[0] == OpcodeCode(op) && b[4..] == EncodeOffset(offset)
    ensures address.RegisterAt? ==> b[1..4] == [AddressTypeCode(RegisterAddress), RegisterCode(address.register), 0]
    ensures address.LiteralAt? ==> b[1] == AddressTypeCode(LiteralAddress) && (b[2] as int) * 256 + b[3] == address.address % 65536
  {
    match address
    case RegisterAt(r) =>
      [OpcodeCode(op), AddressTypeCode(RegisterAddress), RegisterCode(r), 0] + EncodeOffset(offset)
    case LiteralAt(v) =>
      BigEndianRoundTrip(v);
      [OpcodeCode(op), AddressTypeCode(LiteralAddress), HighByte(v), LowByte(v)] + EncodeOffset(offset)
  }

  /** `encodeBranchingInstruction(opcode, address)`: `[op, h, l]`. */
  function EncodeBranching(op: Opcode, address: int): (b: seq<Byte>)
    requires IsBranching(op)
    ensures |b| == 3 == Width(op)
    ensures b[0] == OpcodeCode(op) && (b[1] as int) * 256 + b[2] == address % 65536
  {
    BigEndianRoundTrip(address);
    [OpcodeCode(op), HighByte(address), LowByte(address)]
  }

  /** The source operand of `set`/`push`: a register or a literal byte. */
  datatype Operand = RegisterValue(register: Register) | LiteralValue(value: int)

  /** `encodeOperand(operand)`: `[type, value]`. */
  function EncodeOperand(o: Operand): (b: seq<Byte>)
    ensures |b| == 2
  {
    match o
    case RegisterValue(r) => [OperandTypeCode(RegisterOperand), RegisterCode(r)]
    case LiteralValue(v) => [OperandTypeCode(LiteralOperand), ToByte(v)]
  }

  /** `encodeSetInstruction({destination, source})`: 4 bytes. */
  function EncodeSet(destination: Register, source: Operand): (b: seq<Byte>)
    ensures |b| == 4 == Width(Set)
    ensures b[0] == OpcodeCode(Set) && b[1] == RegisterCode(destination) && b[2..] == EncodeOperand(source)
  {
    [OpcodeCode(Set), RegisterCode(destination)] + EncodeOperand(source)
  }

  // Decoders: the inverse reading of each layout, independent of the
  // encoders, against which the encoders are proved.

  function DecodeOffset(b: seq<Byte>): Option<Offset>
    requires |b| == 3
  {
    var kind := if b[0] == 0 then Some(LiteralOffset) else if b[0] == 1 then Some(RegisterOffset) else None;
    var sign := if b[1] == 0 then Some(Plus) else if b[1] == 1 then Some(Minus) else None;
    if kind.None? || sign.None? then None else Some(Offset(kind.value, sign.value, b[2]))
  }

  function DecodeMemoryAccess(b: seq<Byte>): Option<(Opcode, MemoryAddress, Offset)>
    requires |b| == 7
  {
    var op := OpcodeFromCode(b[0]);
    var offset := DecodeOffset(b[4..]);
    if op.None? || !IsMemoryAccess(op.value) || offset.None? then None
    else if b[1] == 0 then Some((op.value, LiteralAt((b[2] as int) * 256 + b[3]), offset.value))
    else if b[1] == 1 && RegisterFromCode(b[2]).Some? then Some((op.value, RegisterAt(RegisterFromCode(b[2]).value), offset.value))
    else None
  }

  function DecodeBranching(b: seq<Byte>): Option<(Opcode, int)>
    requires |b| == 3
  {
    var op := OpcodeFromCode(b[0]);
    if op.None? || !IsBranching(op.value) then None else Some((op.value, (b[1] as int) * 256 + b[2]))
  }

  function DecodeOperand(b: seq<Byte>): Option<Operand>
    requires |b| == 2
  {
    if b[0] == 0 then Some(LiteralValue(b[1]))
    else if b[0] == 1 && RegisterFromCode(b[1]).Some? then Some(RegisterValue(RegisterFromCode(b[1]).value))
    else None
  }

  function DecodeSet(b: seq<Byte>): Option<(Register, Operand)>
    requires |b| == 4
  {
    var dest := RegisterFromCode(b[1]);
    var source := DecodeOperand(b[2..]);
    if b[0] != OpcodeCode(Set) || dest.None? || source.None? then None
    else Some((dest.value, source.value))
  }

  /** A 16-bit address and an offset value as the encoding keeps them. */
  function NormalAddress(a: MemoryAddress): MemoryAddress {
    match a
    case RegisterAt(r) => a
    case LiteralAt(v) => LiteralAt(v % 65536)
  }

  function NormalOffset(o: Offset): Offset {
    o.(value := ToByte(o.value))
  }

  function NormalOperand(o: Operand): Operand {
    match o
    case RegisterValue(_) => o
    case LiteralValue(v) => LiteralValue(ToByte(v))
  }

  /** Decoding a memory-access encoding gives back its opcode, address and
      offset, with the literal address taken modulo 65536 and the offset
      value modulo 256: exactly the operands when they are in range. */
  lemma {:induction false} MemoryAccessRoundTrip(op: Opcode, address: MemoryAddress, offset: Offset)
    requires IsMemoryAccess(op)
    ensures DecodeMemoryAccess(EncodeMemoryAccess(op, address, offset)) == Some((op, NormalAddress(address), NormalOffset(offset)))
  {
    var b := EncodeMemoryAccess(op, address, offset);
    OpcodeCodeRoundTrip(op);
    assert b[4..] == EncodeOffset(offset);
    match address
    case RegisterAt(r) => RegisterCodeRoundTrip(r);
    case LiteralAt(v) =>
  }

  lemma {:induction false} BranchingRoundTrip(op: Opcode, address: int)
    requires IsBranching(op)
    ensures DecodeBranching(EncodeBranching(op, address)) == Some((op, address % 65536))
  {
    OpcodeCodeRoundTrip(op);
  }

  lemma {:induction false} SetRoundTrip(destination: Register, source: Operand)
    ensures DecodeSet(EncodeSet(destination, source)) == Some((destination, NormalOperand(source)))
  {
    var b := EncodeSet(destination, source);
    RegisterCodeRoundTrip(destination);
    assert b[2..] == EncodeOperand(source);
    match source
    case RegisterValue(r) => RegisterCodeRoundTrip(r);
    case LiteralValue(v) =>
  }
}
