/** The virtual machine (vm.ts): six integer registers, a ROM, a 65536-byte
    memory and a fetch/decode/execute loop over the older opcode numbering
    (opcode.ts).

    The machine is first described on values: `Machine` is the whole state
    and each instruction is a function from a machine to the next one, or
    to a `Fault`. The class `VM` keeps the state in fields and a memory
    array, as the source does, and each of its methods is proved to have
    exactly the effect of the matching function.

    JavaScript lets the machine go on with `undefined` or NaN where a read
    finds nothing (a register number no register has, a memory index
    outside the array, a ROM index past its end). The model goes on where
    the source's value is still a number (an undefined shifts as 0 and is
    stored into a `Uint8Array` as 0; a write outside the array or to an
    unknown register is dropped) and stops with a `Fault` where a register
    would receive a value that is not a number. */
module Vm {
  import opened Wrappers
  import C = CoreOpcode
  import L = LegacyOpcode
  import J = Int32

  type Byte = C.Byte

  /** `MEM_SIZE` */
  const MemSize: int := 65536

  datatype Machine = Machine(
    rom: seq<Byte>,
    memory: seq<Byte>,
    a: int, x: int, y: int,
    ip: int, sp: int, fp: int)

  datatype FaultKind =
    /** an operand byte was fetched past the end of the ROM */
    | TruncatedInstruction
    /** a register would receive `undefined` or NaN */
    | UndefinedValue
    /** the opcode byte is not an `Opcode` member (None: it lay outside
        the ROM) */
    | UnknownOpcode(code: Option<Byte>)
    /** a `Divide` whose quotient is not an integer */
    | InexactDivision

  /** A fault and the machine as it stood when it arose. */
  datatype Fault = Fault(kind: FaultKind, at: Machine)

  /** The state of a new `VM`: an empty ROM, zeroed memory, every register
      0 except the stack and frame pointers, which start at the top of
      memory. */
  function Initial(): (m: Machine)
    ensures |m.memory| == MemSize && forall i :: 0 <= i < MemSize ==> m.memory[i] == 0
    ensures m.sp == MemSize - 1 && m.fp == MemSize - 1 && m.ip == 0
  {
    Machine([], seq(MemSize, _ => 0), 0, 0, 0, 0, MemSize - 1, MemSize - 1)
  }

  predicate InMemory(m: Machine, address: int) {
    0 <= address < |m.memory|
  }

  // ---------------------------------------------------------------------
  // The primitive operations

  /** `fetch()`: the ROM byte at ip (None past either end) and ip + 1. */
  function FetchFrom(m: Machine): (Option<Byte>, Machine) {
    (if 0 <= m.ip < |m.rom| then Some(m.rom[m.ip]) else None, m.(ip := m.ip + 1))
  }

  /** `(h << 8) + l` on two bytes that may be undefined: `undefined << 8`
      is 0, and adding an undefined gives NaN. */
  function Combine(h: Option<Byte>, l: Option<Byte>): (r: Option<int>)
    ensures r.Some? <==> l.Some?
    ensures h.Some? && l.Some? ==> r == Some(h.value * 256 + l.value)
  {
    if l.None? then None else Some((if h.Some? then h.value else 0) * 256 + l.value)
  }

  /** `fetch16()`: a big-endian 16-bit operand. */
  function Fetch16From(m: Machine): (Option<int>, Machine) {
    var (h, m1) := FetchFrom(m);
    var (l, m2) := FetchFrom(m1);
    (Combine(h, l), m2)
  }

  /** `push(value)`: store the value modulo 256 at sp (a write outside
      the array is dropped), then decrement sp. */
  function PushOnto(m: Machine, value: int): Machine {
    m.(memory := if InMemory(m, m.sp) then m.memory[m.sp := C.ToByte(value)] else m.memory,
       sp := m.sp - 1)
  }

  /** `pop()`: read the byte at sp (None outside the array), then increment
      sp. */
  function PopFrom(m: Machine): (Option<Byte>, Machine) {
    (if InMemory(m, m.sp) then Some(m.memory[m.sp]) else None, m.(sp := m.sp + 1))
  }

  /** `getRegister(r)`; None for a number no register has. */
  function ReadRegister(m: Machine, code: int): (v: Option<int>)
    ensures v.Some? <==> C.RegisterFromCode(code).Some?
  {
    match C.RegisterFromCode(code)
    case None => None
    case Some(r) =>
      Some(match r
        case A => m.a
        case X => m.x
        case Y => m.y
        case XY => J.ShiftLeft(m.x, 8) + m.y
        case IP => m.ip
        case SP => m.sp
        case FP => m.fp)
  }

  /** `setRegister(r, value)`; writing XY writes only y, and a number no
      register has changes nothing. */
  function WriteRegister(m: Machine, code: int, value: int): Machine {
    match C.RegisterFromCode(code)
    case None => m
    case Some(r) =>
      match r
      case A => m.(a := value)
      case X => m.(x := value)
      case Y => m.(y := value)
      case XY => m.(y := value)
      case IP => m.(ip := value)
      case SP => m.(sp := value)
      case FP => m.(fp := value)
  }

  /** A register written with a value reads back that value, except XY,
      whose write goes to y alone. */
  lemma RegisterReadAfterWrite(m: Machine, code: int, value: int)
    requires 0 <= code < 7 && code != 3
    ensures ReadRegister(WriteRegister(m, code, value), code) == Some(value)
    ensures WriteRegister(m, 3, value) == m.(y := value)
    ensures ReadRegister(m, 3) == Some(J.ShiftLeft(m.x, 8) + m.y)
    ensures 0 <= m.x < 0x80_0000 ==> ReadRegister(m, 3) == Some(m.x * 256 + m.y)
  {
    if 0 <= m.x < 0x80_0000 {
      J.ShiftLeftByEight(m.x);
    }
  }

  /** The three registers of a call frame, read and written by number. */
  lemma FrameRegisters(m: Machine, value: int)
    ensures ReadRegister(m, 4) == Some(m.ip) && ReadRegister(m, 5) == Some(m.sp) && ReadRegister(m, 6) == Some(m.fp)
    ensures WriteRegister(m, 4, value) == m.(ip := value) && WriteRegister(m, 6, value) == m.(fp := value)
  {
  }

  // ---------------------------------------------------------------------
  // The instructions. Each starts with ip just past its opcode byte.

  /** A value a `Set` or `Push` takes: the literal byte when the operand
      type is `Literal`, otherwise the register it names. */
  function SourceValue(m: Machine, operandType: Byte, valueOrRegister: Byte): Option<int> {
    if operandType == C.OperandTypeCode(C.LiteralOperand) then Some(valueOrRegister)
    else ReadRegister(m, valueOrRegister)
  }

  /** Three operand bytes fetched one after another; None when any of
      them lies outside the ROM. */
  function FetchThree(m: Machine): (r: (Option<(Byte, Byte, Byte)>, Machine))
    ensures r.1 == m.(ip := m.ip + 3)
    ensures r.0.Some? <==> 0 <= m.ip && m.ip + 3 <= |m.rom|
    ensures r.0.Some? ==> r.0.value == (m.rom[m.ip], m.rom[m.ip + 1], m.rom[m.ip + 2])
  {
    var (b0, m1) := FetchFrom(m);
    var (b1, m2) := FetchFrom(m1);
    var (b2, m3) := FetchFrom(m2);
    (if b0.None? || b1.None? || b2.None? then None else Some((b0.value, b1.value, b2.value)), m3)
  }

  /** `Set`: the destination register := the literal or the source register. */
  function SetInstruction(m: Machine): (r: Result<Machine, Fault>)
    ensures r.Ok? ==> r.value.memory == m.memory && r.value.rom == m.rom
  {
    var (operands, m3) := FetchThree(m);
    if operands.None? then Err(Fault(TruncatedInstruction, m3))
    else
      var (d, t, s) := operands.value;
      var value := SourceValue(m3, t, s);
      if C.RegisterFromCode(d).None? then Ok(m3)
      else if value.None? then Err(Fault(UndefinedValue, m3))
      else Ok(WriteRegister(m3, d, value.value))
  }

  /** The address operand of `peek` and `poke`: two big-endian bytes, a
      register's value, or 0 for any other address type. */
  function BaseAddress(m: Machine, addressType: Byte, operandA: Byte, operandB: Byte): Option<int> {
    if addressType == C.AddressTypeCode(C.LiteralAddress) then Some(operandA as int * 256 + operandB)
    else if addressType == C.AddressTypeCode(C.RegisterAddress) then ReadRegister(m, operandA)
    else Some(0)
  }

  /** The six operand bytes of `peek` and `poke`: the address (a literal in
      two bytes, or a register's value) and the offset (a literal or a
      register's value) to add or subtract. None where the address is NaN
      because a register is unknown. */
  function EffectiveAddress(m: Machine): (r: Result<(Option<int>, Machine), Fault>)
    ensures r.Ok? <==> 0 <= m.ip && m.ip + 6 <= |m.rom|
    ensures r.Ok? ==> r.value.1 == m.(ip := m.ip + 6)
    ensures r.Err? ==> r.error == Fault(TruncatedInstruction, m.(ip := m.ip + 6))
    ensures r.Ok? && m.rom[m.ip] == 1 && ReadRegister(m.(ip := m.ip + 3), m.rom[m.ip + 1]).None? ==> r.value.0.None?
    ensures r.Ok? && m.rom[m.ip + 3] == 1 && ReadRegister(m.(ip := m.ip + 6), m.rom[m.ip + 5]).None? ==> r.value.0.None?
  {
    var (first, m3) := FetchThree(m);
    var (second, m6) := FetchThree(m3);
    if first.None? || second.None? then Err(Fault(TruncatedInstruction, m6))
    else
      var (addressType, operandA, operandB) := first.value;
      var (offsetType, offsetSign, offsetValue) := second.value;
      var address := BaseAddress(m3, addressType, operandA, operandB);
      var offset :=
        if offsetType == C.OffsetTypeCode(C.RegisterOffset) then ReadRegister(m6, offsetValue)
        else Some(offsetValue as int);
      if address.None? || offset.None? then Ok((None, m6))
      else if offsetSign == C.OffsetSignCode(C.Plus) then Ok((Some(address.value + offset.value), m6))
      else Ok((Some(address.value - offset.value), m6))
  }

  /** `Peek`: A := memory[address]; a read outside memory is undefined. */
  function PeekInstruction(m: Machine): (r: Result<Machine, Fault>)
    ensures var e := EffectiveAddress(m);
      r.Ok? <==> e.Ok? && e.value.0.Some? && InMemory(m, e.value.0.value)
    ensures r.Ok? ==> r.value == m.(ip := m.ip + 6, a := m.memory[EffectiveAddress(m).value.0.value])
    ensures r.Err? ==> r.error.kind == TruncatedInstruction || r.error.kind == UndefinedValue
  {
    var (address, m6) :- EffectiveAddress(m);
    if address.Some? && InMemory(m6, address.value) then Ok(m6.(a := m6.memory[address.value]))
    else Err(Fault(UndefinedValue, m6))
  }

  /** `Poke`: memory[address] := A modulo 256; a write outside memory is
      dropped. */
  function PokeInstruction(m: Machine): (r: Result<Machine, Fault>)
    ensures r.Ok? <==> 0 <= m.ip && m.ip + 6 <= |m.rom|
    ensures r.Ok? ==> var address := EffectiveAddress(m).value.0;
      r.value == m.(ip := m.ip + 6,
                    memory := if address.Some? && InMemory(m, address.value) then m.memory[address.value := C.ToByte(m.a)]
                              else m.memory)
  {
    var (address, m6) :- EffectiveAddress(m);
    if address.Some? && InMemory(m6, address.value) then Ok(m6.(memory := m6.memory[address.value := C.ToByte(m6.a)]))
    else Ok(m6)
  }

  predicate IsArithmeticLogic(op: L.Opcode) {
    op.Add? || op.Subtract? || op.Multiply? || op.Divide? || op.ShiftLeft? || op.ShiftRight? ||
    op.And? || op.Or? || op.Not?
  }

  /** An undefined operand of a bitwise operator converts to 0. */
  function OrZero(v: Option<int>): int {
    if v.Some? then v.value else 0
  }

  /** The operation of each arithmetic-logic opcode on the left register's
      value and the right operand (either may be undefined). Addition,
      subtraction and multiplication are exact; a division is defined only
      where the quotient is an integer; shifts, and, or and not are the
      32-bit operators, and `not` ignores its right operand. */
  function Operation(op: L.Opcode, left: Option<int>, right: Option<int>): (r: Result<int, FaultKind>)
    requires IsArithmeticLogic(op)
    ensures (op.ShiftLeft? || op.ShiftRight? || op.And? || op.Or? || op.Not?) ==> r.Ok? && J.InRange(r.value)
    ensures r.Err? && r.error == UndefinedValue ==> left.None? || right.None?
    ensures op.Divide? && r.Ok? ==> left.Some? && right.Some? && right.value != 0 && r.value * right.value == left.value
  {
    match op
    case Not => Ok(J.Not(OrZero(left)))
    case ShiftLeft => Ok(J.ShiftLeft(OrZero(left), OrZero(right)))
    case ShiftRight => Ok(J.ShiftRight(OrZero(left), OrZero(right)))
    case And => Ok(J.And(OrZero(left), OrZero(right)))
    case Or => Ok(J.Or(OrZero(left), OrZero(right)))
    case Add => if left.None? || right.None? then Err(UndefinedValue) else Ok(left.value + right.value)
    case Subtract => if left.None? || right.None? then Err(UndefinedValue) else Ok(left.value - right.value)
    case Multiply => if left.None? || right.None? then Err(UndefinedValue) else Ok(left.value * right.value)
    case Divide =>
      if left.None? || right.None? then Err(UndefinedValue)
      else if right.value != 0 && left.value % right.value == 0 then Ok(left.value / right.value)
      else Err(InexactDivision)
    case _ => assert false; Err(UndefinedValue)
  }

  /** The right operand of an arithmetic-logic instruction: the register it
      names when its type byte says `Register`, the literal byte otherwise. */
  function RightOperand(m: Machine, operandType: Byte, registerOrValue: Byte): Option<int> {
    if operandType == C.OperandTypeCode(C.RegisterOperand) then ReadRegister(m, registerOrValue)
    else Some(registerOrValue as int)
  }

  /** `executeArithmeticLogicInstruction`: the left operand is a register,
      the right one a register when its type says `Register` and a literal
      otherwise; the result always goes to A. */
  function ArithmeticLogic(m: Machine, op: L.Opcode): (r: Result<Machine, Fault>)
    requires IsArithmeticLogic(op)
    ensures r.Ok? ==> r.value == m.(ip := m.ip + 3, a := r.value.a)
    ensures r.Ok? ==> 0 <= m.ip && m.ip + 3 <= |m.rom|
    ensures r.Ok? ==> var m3 := m.(ip := m.ip + 3);
      Operation(op, ReadRegister(m3, m.rom[m.ip]), RightOperand(m3, m.rom[m.ip + 1], m.rom[m.ip + 2])) == Ok(r.value.a)
  {
    var (operands, m3) := FetchThree(m);
    if operands.None? then Err(Fault(TruncatedInstruction, m3))
    else
      var (leftRegister, rightType, rightOperand) := operands.value;
      var left := ReadRegister(m3, leftRegister);
      var right := RightOperand(m3, rightType, rightOperand);
      match Operation(op, left, right)
      case Ok(v) => Ok(m3.(a := v))
      case Err(kind) => Err(Fault(kind, m3))
  }

  /** `Jump`: ip := the 16-bit operand. */
  function JumpInstruction(m: Machine): Result<Machine, Fault> {
    var (target, m2) := Fetch16From(m);
    if target.None? then Err(Fault(UndefinedValue, m2)) else Ok(m2.(ip := target.value))
  }

  /** `JumpIfZero` (ifZero) and `JumpIfNotZero`: jump when A is, or is not, zero; otherwise
      continue past the operand. */
  function ConditionalJump(m: Machine, ifZero: bool): Result<Machine, Fault> {
    var (target, m2) := Fetch16From(m);
    if (m.a == 0) != ifZero then Ok(m2)
    else if target.None? then Err(Fault(UndefinedValue, m2))
    else Ok(m2.(ip := target.value))
  }

  /** `Call`: push the return address (ip after the operand, plus one) and
      the frame pointer, low byte first, set fp to the stack pointer from
      before the pushes and jump. */
  function CallInstruction(m: Machine): Result<Machine, Fault> {
    var (target, m2) := Fetch16From(m);
    var returnAddress := m2.ip + 1;
    var m3 := PushOnto(m2, C.LowByte(returnAddress));
    var m4 := PushOnto(m3, C.HighByte(returnAddress));
    var m5 := PushOnto(m4, C.LowByte(m2.fp));
    var m6 := PushOnto(m5, C.HighByte(m2.fp));
    if target.None? then Err(Fault(UndefinedValue, m6.(fp := m2.sp)))
    else Ok(m6.(fp := m2.sp, ip := target.value))
  }

  /** `Return`: discard one pop, then pop the frame pointer and the return
      address, high byte first. */
  function ReturnInstruction(m: Machine): Result<Machine, Fault> {
    var (_, m1) := PopFrom(m);
    var (fpHigh, m2) := PopFrom(m1);
    var (fpLow, m3) := PopFrom(m2);
    var (retHigh, m4) := PopFrom(m3);
    var (retLow, m5) := PopFrom(m4);
    var framePointer := Combine(fpHigh, fpLow);
    var returnAddress := Combine(retHigh, retLow);
    if framePointer.None? || returnAddress.None? then Err(Fault(UndefinedValue, m5))
    else Ok(m5.(ip := returnAddress.value, fp := framePointer.value))
  }

  /** `Push`: an undefined register value is stored as 0. */
  function PushInstruction(m: Machine): Result<Machine, Fault> {
    var (t, m1) := FetchFrom(m);
    var (s, m2) := FetchFrom(m1);
    if t.None? || s.None? then Err(Fault(TruncatedInstruction, m2))
    else Ok(PushOnto(m2, OrZero(SourceValue(m2, t.value, s.value))))
  }

  /** `Pop`: A := the popped byte. */
  function PopInstruction(m: Machine): Result<Machine, Fault> {
    var (v, m1) := PopFrom(m);
    if v.None? then Err(Fault(UndefinedValue, m1)) else Ok(m1.(a := v.value))
  }

  /** `execute(opcode)` */
  function Executed(m: Machine, op: L.Opcode): (r: Result<Machine, Fault>)
    ensures r.Ok? ==> r.value.rom == m.rom && |r.value.memory| == |m.memory|
  {
    match op
    case Halt => Ok(m.(ip := |m.rom|))
    case Set => SetInstruction(m)
    case Peek => PeekInstruction(m)
    case Poke => PokeInstruction(m)
    case Jump => JumpInstruction(m)
    case JumpIfZero => ConditionalJump(m, true)
    case JumpIfNotZero => ConditionalJump(m, false)
    case Call => CallInstruction(m)
    case Return => ReturnInstruction(m)
    case Push => PushInstruction(m)
    case Pop => PopInstruction(m)
    case _ => ArithmeticLogic(m, op)
  }

  /** One turn of the run loop: `execute(fetch())`, which throws on a byte
      that is no opcode. */
  function Step(m: Machine): (r: Result<Machine, Fault>)
    ensures r.Ok? ==> r.value.rom == m.rom && |r.value.memory| == |m.memory|
  {
    var (b, m1) := FetchFrom(m);
    if b.None? then Err(Fault(UnknownOpcode(None), m1))
    else match L.FromCode(b.value)
      case None => Err(Fault(UnknownOpcode(b), m1))
      case Some(op) => Executed(m1, op)
  }

  datatype Outcome = Halted(final: Machine) | Faulted(fault: Fault) | OutOfFuel(final: Machine)

  /** The machine an outcome leaves behind. */
  function Final(o: Outcome): Machine {
    match o
    case Halted(m) => m
    case Faulted(f) => f.at
    case OutOfFuel(m) => m
  }

  /** `run`: while ip is inside the ROM, fetch an opcode and execute it;
      here for at most `fuel` instructions. */
  function RunFrom(m: Machine, fuel: nat): (o: Outcome)
    ensures o.Halted? ==> o.final.ip >= |o.final.rom|
    ensures o.OutOfFuel? ==> o.final.ip < |o.final.rom|
    decreases fuel
  {
    if m.ip >= |m.rom| then Halted(m)
    else if fuel == 0 then OutOfFuel(m)
    else match Step(m)
      case Err(f) => Faulted(f)
      case Ok(m') => RunFrom(m', fuel - 1)
  }

  // ---------------------------------------------------------------------
  // Properties of the machine

  /** The stack is asymmetric: push writes at sp and then moves down, pop
      reads at sp and then moves up, so a pop straight after a push reads
      the byte below the pushed one and leaves the pushed byte in memory. */
  lemma PopAfterPush(m: Machine, value: int)
    requires InMemory(m, m.sp) && InMemory(m, m.sp - 1)
    ensures PopFrom(PushOnto(m, value)) ==
      (Some(m.memory[m.sp - 1]), m.(memory := m.memory[m.sp := C.ToByte(value)]))
  {
  }

  /** On a fresh machine, `push 7` then `pop` yields 0, not 7. */
  lemma PopAfterPushExample()
    ensures PopFrom(PushOnto(Initial(), 7)).0 == Some(0)
    ensures PushOnto(Initial(), 7).memory[MemSize - 1] == 7
  {
    PopAfterPush(Initial(), 7);
  }

  /** `Call` pushes four bytes, the return address low byte first, and
      moves fp to the old sp. */
  lemma CallEffect(m: Machine)
    requires 0 <= m.ip && m.ip + 2 <= |m.rom|
    requires 4 <= m.sp < |m.memory|
    ensures CallInstruction(m) == Ok(m.(
      ip := m.rom[m.ip] as int * 256 + m.rom[m.ip + 1],
      fp := m.sp,
      sp := m.sp - 4,
      memory := m.memory[m.sp := C.LowByte(m.ip + 3)][m.sp - 1 := C.HighByte(m.ip + 3)]
                        [m.sp - 2 := C.LowByte(m.fp)][m.sp - 3 := C.HighByte(m.fp)]))
  {
  }

  /** `Return` skips the byte at sp, then rebuilds fp and ip from the next
      four, high byte first, leaving sp five above where it was. */
  lemma ReturnEffect(m: Machine)
    requires 0 <= m.sp && m.sp + 5 <= |m.memory|
    ensures ReturnInstruction(m) == Ok(m.(
      sp := m.sp + 5,
      fp := m.memory[m.sp + 1] as int * 256 + m.memory[m.sp + 2],
      ip := m.memory[m.sp + 3] as int * 256 + m.memory[m.sp + 4]))
  {
  }

  /** A `Call` at `ip` to a `Return`, with the stack untouched in between,
      comes back to ip + 4 (one byte past the end of the three-byte call)
      with fp restored and sp one ABOVE its value before the call. */
  lemma {:induction false} CallThenReturn(m: Machine)
    requires 0 <= m.ip && m.ip + 3 <= |m.rom| && m.rom[m.ip] == L.Code(L.Call)
    requires var target := m.rom[m.ip + 1] as int * 256 + m.rom[m.ip + 2];
      0 <= target < |m.rom| && m.rom[target] == L.Code(L.Return)
    requires 4 <= m.sp < |m.memory| && 0 <= m.fp < 65536 && m.ip + 4 < 65536
    ensures Step(m).Ok? && Step(Step(m).value).Ok?
    ensures var m' := Step(Step(m).value).value;
      m' == m.(ip := m.ip + 4, sp := m.sp + 1, memory := m'.memory)
  {
    var m1 := m.(ip := m.ip + 1);
    assert FetchFrom(m) == (Some(m.rom[m.ip]), m1);
    assert L.FromCode(m.rom[m.ip]) == Some(L.Call);
    assert Step(m) == CallInstruction(m1);
    CallEffect(m1);
    var m2 := CallInstruction(m1).value;
    var m3 := m2.(ip := m2.ip + 1);
    assert FetchFrom(m2) == (Some(m2.rom[m2.ip]), m3);
    assert L.FromCode(m2.rom[m2.ip]) == Some(L.Return);
    assert Step(m2) == ReturnInstruction(m3);
    ReturnEffect(m3);
    assert m3.sp == m.sp - 4;
    assert m3.memory[m3.sp + 1] == C.HighByte(m.fp) && m3.memory[m3.sp + 2] == C.LowByte(m.fp);
    assert m3.memory[m3.sp + 3] == C.HighByte(m.ip + 4) && m3.memory[m3.sp + 4] == C.LowByte(m.ip + 4);
    C.BigEndianRoundTrip(m.fp);
    C.BigEndianRoundTrip(m.ip + 4);
  }

  /** `Set`: the literal, or the source register's value, goes to the
      destination register. */
  lemma {:induction false} SetEffect(m: Machine)
    requires 0 <= m.ip && m.ip + 3 <= |m.rom|
    requires C.RegisterFromCode(m.rom[m.ip]).Some?
    ensures var source := SourceValue(m.(ip := m.ip + 3), m.rom[m.ip + 1], m.rom[m.ip + 2]);
      SetInstruction(m) == if source.None? then Err(Fault(UndefinedValue, m.(ip := m.ip + 3)))
                           else Ok(WriteRegister(m.(ip := m.ip + 3), m.rom[m.ip], source.value))
    ensures m.rom[m.ip + 1] == 0 ==> SetInstruction(m) == Ok(WriteRegister(m.(ip := m.ip + 3), m.rom[m.ip], m.rom[m.ip + 2]))
  {
    assert FetchFrom(m) == (Some(m.rom[m.ip]), m.(ip := m.ip + 1));
    assert FetchFrom(m.(ip := m.ip + 1)) == (Some(m.rom[m.ip + 1]), m.(ip := m.ip + 2));
    assert FetchFrom(m.(ip := m.ip + 2)) == (Some(m.rom[m.ip + 2]), m.(ip := m.ip + 3));
  }

  /** The result of an arithmetic-logic instruction on the left register and
      the right operand (a register when its type byte is 1, a literal
      otherwise) goes into A, and nothing else changes but ip. */
  lemma {:induction false} ArithmeticLogicEffect(m: Machine, op: L.Opcode)
    requires IsArithmeticLogic(op)
    requires 0 <= m.ip && m.ip + 3 <= |m.rom|
    ensures var m3 := m.(ip := m.ip + 3);
      var left := ReadRegister(m3, m.rom[m.ip]);
      var right := if m.rom[m.ip + 1] == 1 then ReadRegister(m3, m.rom[m.ip + 2]) else Some(m.rom[m.ip + 2] as int);
      ArithmeticLogic(m, op) == match Operation(op, left, right)
        case Ok(v) => Ok(m3.(a := v))
        case Err(k) => Err(Fault(k, m3))
    ensures op.Add? && m.rom[m.ip] == 0 && m.rom[m.ip + 1] != 1 ==>
      ArithmeticLogic(m, op) == Ok(m.(ip := m.ip + 3, a := m.a + m.rom[m.ip + 2]))
    ensures op.Add? && m.rom[m.ip .. m.ip + 3] == [0, 1, 1] ==>
      ArithmeticLogic(m, op) == Ok(m.(ip := m.ip + 3, a := m.a + m.x))
    ensures op.Subtract? && m.rom[m.ip .. m.ip + 3] == [1, 1, 2] ==>
      ArithmeticLogic(m, op) == Ok(m.(ip := m.ip + 3, a := m.x - m.y))
    ensures m.rom[m.ip + 1] == 1 && m.rom[m.ip + 2] >= 7 && (op.Add? || op.Subtract? || op.Multiply? || op.Divide?) ==>
      ArithmeticLogic(m, op) == Err(Fault(UndefinedValue, m.(ip := m.ip + 3)))
  {
    assert FetchFrom(m) == (Some(m.rom[m.ip]), m.(ip := m.ip + 1));
    assert FetchFrom(m.(ip := m.ip + 1)) == (Some(m.rom[m.ip + 1]), m.(ip := m.ip + 2));
    assert FetchFrom(m.(ip := m.ip + 2)) == (Some(m.rom[m.ip + 2]), m.(ip := m.ip + 3));
    if m.rom[m.ip .. m.ip + 3] == [0, 1, 1] || m.rom[m.ip .. m.ip + 3] == [1, 1, 2] {
      assert m.rom[m.ip] == m.rom[m.ip .. m.ip + 3][0];
      assert m.rom[m.ip + 1] == m.rom[m.ip .. m.ip + 3][1];
      assert m.rom[m.ip + 2] == m.rom[m.ip .. m.ip + 3][2];
    }
  }

  /** `Jump` goes to the big-endian operand; `JumpIfZero` jumps exactly when A is
      zero and `JumpIfNotZero` exactly when it is not; otherwise ip ends just past
      the operand. */
  lemma {:induction false} JumpEffect(m: Machine)
    requires 0 <= m.ip && m.ip + 2 <= |m.rom|
    ensures var target := m.rom[m.ip] as int * 256 + m.rom[m.ip + 1];
      JumpInstruction(m) == Ok(m.(ip := target)) &&
      ConditionalJump(m, true) == Ok(m.(ip := if m.a == 0 then target else m.ip + 2)) &&
      ConditionalJump(m, false) == Ok(m.(ip := if m.a != 0 then target else m.ip + 2))
  {
    assert Fetch16From(m) == (Some(m.rom[m.ip] as int * 256 + m.rom[m.ip + 1]), m.(ip := m.ip + 2));
  }

  /** The effective address of a `Peek` or `Poke`, from its six operand
      bytes: the base is a big-endian literal (address type 0) or a
      register's value read with ip just past the address operand (type 1),
      the offset a register's value read with ip past all six bytes (offset
      type 1) or the literal byte, and the offset is added (sign 0) or
      subtracted. An unknown register makes the address undefined. */
  lemma {:induction false} EffectiveAddressForms(m: Machine)
    requires 0 <= m.ip && m.ip + 6 <= |m.rom|
    ensures var m3, m6 := m.(ip := m.ip + 3), m.(ip := m.ip + 6);
      var base :=
        if m.rom[m.ip] == 0 then Some(m.rom[m.ip + 1] as int * 256 + m.rom[m.ip + 2])
        else if m.rom[m.ip] == 1 then ReadRegister(m3, m.rom[m.ip + 1])
        else Some(0);
      var offset := if m.rom[m.ip + 3] == 1 then ReadRegister(m6, m.rom[m.ip + 5]) else Some(m.rom[m.ip + 5] as int);
      EffectiveAddress(m) ==
        Ok((if base.None? || offset.None? then None
            else if m.rom[m.ip + 4] == 0 then Some(base.value + offset.value)
            else Some(base.value - offset.value), m6))
    ensures m.rom[m.ip] == 1 && m.rom[m.ip + 1] < 7 && m.rom[m.ip + 3] != 1 && m.rom[m.ip + 5] == 0 ==>
      EffectiveAddress(m) == Ok((ReadRegister(m.(ip := m.ip + 3), m.rom[m.ip + 1]), m.(ip := m.ip + 6)))
    ensures m.rom[m.ip .. m.ip + 6] == [1, 1, 0, 1, 0, 2] ==>
      EffectiveAddress(m) == Ok((Some(m.x + m.y), m.(ip := m.ip + 6)))
    ensures m.rom[m.ip .. m.ip + 6] == [0, 1, 0, 1, 1, 0] ==>
      EffectiveAddress(m) == Ok((Some(256 - m.a), m.(ip := m.ip + 6)))
  {
    assert FetchThree(m).0 == Some((m.rom[m.ip], m.rom[m.ip + 1], m.rom[m.ip + 2]));
    assert FetchThree(m.(ip := m.ip + 3)).0 == Some((m.rom[m.ip + 3], m.rom[m.ip + 4], m.rom[m.ip + 5]));
    if m.rom[m.ip .. m.ip + 6] == [1, 1, 0, 1, 0, 2] || m.rom[m.ip .. m.ip + 6] == [0, 1, 0, 1, 1, 0] {
      var operands := m.rom[m.ip .. m.ip + 6];
      assert m.rom[m.ip] == operands[0] && m.rom[m.ip + 1] == operands[1] && m.rom[m.ip + 2] == operands[2];
      assert m.rom[m.ip + 3] == operands[3] && m.rom[m.ip + 4] == operands[4] && m.rom[m.ip + 5] == operands[5];
    }
  }

  /** With literal operands the effective address is high * 256 + low,
      plus or minus the offset byte. */
  lemma LiteralAddress(m: Machine, high: Byte, low: Byte, sign: Byte, offset: Byte)
    requires 0 <= m.ip && m.ip + 6 <= |m.rom|
    requires m.rom[m.ip..m.ip + 6] == [0, high, low, 0, sign, offset]
    ensures var address := if sign == 0 then high as int * 256 + low + offset else high as int * 256 + low - offset;
      EffectiveAddress(m) == Ok((Some(address), m.(ip := m.ip + 6)))
  {
    var operands := m.rom[m.ip..m.ip + 6];
    assert m.rom[m.ip] == operands[0] && m.rom[m.ip + 1] == operands[1] && m.rom[m.ip + 2] == operands[2];
    assert m.rom[m.ip + 3] == operands[3] && m.rom[m.ip + 4] == operands[4] && m.rom[m.ip + 5] == operands[5];
    EffectiveAddressForms(m);
  }

  /** The effective address depends on the ROM and the registers, never on
      memory. */
  lemma {:induction false} EffectiveAddressIgnoresMemory(m: Machine, memory: seq<Byte>)
    requires 0 <= m.ip && m.ip + 6 <= |m.rom|
    ensures EffectiveAddress(m.(memory := memory)) == Ok((EffectiveAddress(m).value.0, m.(ip := m.ip + 6, memory := memory)))
  {
    EffectiveAddressForms(m);
    EffectiveAddressForms(m.(memory := memory));
    var m3, m6 := m.(ip := m.ip + 3), m.(ip := m.ip + 6);
    assert ReadRegister(m3.(memory := memory), m.rom[m.ip + 1]) == ReadRegister(m3, m.rom[m.ip + 1]);
    assert ReadRegister(m6.(memory := memory), m.rom[m.ip + 5]) == ReadRegister(m6, m.rom[m.ip + 5]);
  }

  /** Whatever the operand forms, a `Poke` stores A modulo 256 at the
      effective address and changes nothing else but ip, and a `Peek` with
      the same operands then reads that byte back into A. */
  lemma {:induction false} PokeThenPeek(m: Machine)
    requires 0 <= m.ip && m.ip + 6 <= |m.rom|
    requires EffectiveAddress(m).value.0.Some? && InMemory(m, EffectiveAddress(m).value.0.value)
    ensures var address := EffectiveAddress(m).value.0.value;
      var poked := m.(ip := m.ip + 6, memory := m.memory[address := C.ToByte(m.a)]);
      PokeInstruction(m) == Ok(poked) &&
      PeekInstruction(poked.(ip := m.ip)) == Ok(poked.(a := C.ToByte(m.a)))
  {
    var address := EffectiveAddress(m).value.0.value;
    var memory := m.memory[address := C.ToByte(m.a)];
    EffectiveAddressIgnoresMemory(m, memory);
    assert m.(ip := m.ip + 6, memory := memory).(ip := m.ip) == m.(memory := memory);
  }

  /** `Halt` ends the run loop; a byte outside the `Opcode` enumeration
      is a fault. */
  lemma HaltAndUnknownOpcodes(m: Machine, fuel: nat)
    requires 0 <= m.ip < |m.rom|
    ensures m.rom[m.ip] == L.Code(L.Halt) && fuel > 0 ==> RunFrom(m, fuel) == Halted(m.(ip := |m.rom|))
    ensures m.rom[m.ip] >= 20 ==> Step(m) == Err(Fault(UnknownOpcode(Some(m.rom[m.ip])), m.(ip := m.ip + 1)))
  {
    if m.rom[m.ip] == L.Code(L.Halt) && fuel > 0 {
      assert Step(m) == Ok(m.(ip := |m.rom|));
    }
  }

  /** Running for `f1` and then for `f2` more instructions is running for
      `f1 + f2`. */
  lemma {:induction false} RunFromSplits(m: Machine, f1: nat, f2: nat)
    requires RunFrom(m, f1).OutOfFuel?
    ensures RunFrom(Final(RunFrom(m, f1)), f2) == RunFrom(m, f1 + f2)
    decreases f1
  {
    hide Step;
    if f1 > 0 {
      var next := Step(m);
      assert next.Ok? && RunFrom(m, f1) == RunFrom(next.value, f1 - 1);
      assert RunFrom(m, f1 + f2) == RunFrom(next.value, f1 - 1 + f2);
      RunFromSplits(next.value, f1 - 1, f2);
    }
  }

  // ---------------------------------------------------------------------
  // The machine as the source keeps it

  /** The spec of a method that may fault: on success the new state is the
      function's result; on a fault the fault is returned and the state is
      the one the fault records. */
  predicate Agrees(fault: Option<Fault>, now: Machine, spec: Result<Machine, Fault>) {
    match spec
    case Ok(m) => fault.None? && now == m
    case Err(f) => fault == Some(f) && now == f.at
  }

  /** `class VM` */
  class VM {
    var rom: seq<Byte>
    /** The `Uint8Array` itself is never replaced, only its contents. */
    const memory: array<Byte>
    var a: int
    var x: int
    var y: int
    var ip: int
    var sp: int
    var fp: int

    function State(): Machine
      reads this, memory
    {
      Machine(rom, memory[..], a, x, y, ip, sp, fp)
    }

    constructor ()
      ensures State() == Initial()
    {
      rom := [];
      memory := new Byte[MemSize](_ => 0);
      a, x, y, ip := 0, 0, 0, 0;
      sp, fp := MemSize - 1, MemSize - 1;
      new;
      assert memory[..] == Initial().memory;
    }

    method Fetch() returns (b: Option<Byte>)
      modifies this
      ensures (b, State()) == FetchFrom(old(State()))
    {
      b := if 0 <= ip < |rom| then Some(rom[ip]) else None;
      ip := ip + 1;
    }

    method Fetch16() returns (v: Option<int>)
      modifies this
      ensures (v, State()) == Fetch16From(old(State()))
    {
      var h := Fetch();
      var l := Fetch();
      v := Combine(h, l);
    }

    method Push(value: int)
      modifies this, memory
      ensures State() == PushOnto(old(State()), value)
    {
      if 0 <= sp < memory.Length {
        memory[sp] := C.ToByte(value);
      }
      sp := sp - 1;
    }

    method Pop() returns (v: Option<Byte>)
      modifies this
      ensures (v, State()) == PopFrom(old(State()))
    {
      v := if 0 <= sp < memory.Length then Some(memory[sp]) else None;
      sp := sp + 1;
    }

    method GetRegister(code: int) returns (v: Option<int>)
      ensures v == ReadRegister(State(), code)
    {
      match C.RegisterFromCode(code)
      case None => v := None;
      case Some(r) =>
        match r {
          case A => v := Some(a);
          case X => v := Some(x);
          case Y => v := Some(y);
          case XY => v := Some(J.ShiftLeft(x, 8) + y);
          case IP => v := Some(ip);
          case SP => v := Some(sp);
          case FP => v := Some(fp);
        }
    }

    method SetRegister(code: int, value: int)
      modifies this
      ensures State() == WriteRegister(old(State()), code, value)
    {
      match C.RegisterFromCode(code)
      case None =>
      case Some(r) =>
        match r {
          case A => a := value;
          case X => x := value;
          case Y => y := value;
          case XY => y := value;
          case IP => ip := value;
          case SP => sp := value;
          case FP => fp := value;
        }
    }

    /** Three `fetch()` calls in a row. */
    method FetchOperands() returns (operands: Option<(Byte, Byte, Byte)>)
      modifies this
      ensures (operands, State()) == FetchThree(old(State()))
    {
      var b0 := Fetch();
      var b1 := Fetch();
      var b2 := Fetch();
      operands := if b0.None? || b1.None? || b2.None? then None else Some((b0.value, b1.value, b2.value));
    }

    method ExecuteArithmeticLogic(op: L.Opcode) returns (fault: Option<Fault>)
      requires IsArithmeticLogic(op)
      modifies this
      ensures Agrees(fault, State(), ArithmeticLogic(old(State()), op))
    {
      var operands := FetchOperands();
      if operands.None? {
        return Some(Fault(TruncatedInstruction, State()));
      }
      var (leftRegister, rightType, rightOperand) := operands.value;
      var left := GetRegister(leftRegister);
      var right: Option<int>;
      if rightType == C.OperandTypeCode(C.RegisterOperand) {
        right := GetRegister(rightOperand);
      } else {
        right := Some(rightOperand);
      }
      match Operation(op, left, right) {
        case Ok(v) =>
          SetRegister(0, v);
          fault := None;
        case Err(kind) =>
          fault := Some(Fault(kind, State()));
      }
    }

    method ExecuteSet() returns (fault: Option<Fault>)
      modifies this
      ensures Agrees(fault, State(), SetInstruction(old(State())))
    {
      var operands := FetchOperands();
      if operands.None? {
        return Some(Fault(TruncatedInstruction, State()));
      }
      var (destination, operandType, valueOrRegister) := operands.value;
      var value: Option<int>;
      if operandType == C.OperandTypeCode(C.LiteralOperand) {
        value := Some(valueOrRegister);
      } else {
        value := GetRegister(valueOrRegister);
      }
      if C.RegisterFromCode(destination).None? {
        return None;
      }
      if value.None? {
        return Some(Fault(UndefinedValue, State()));
      }
      SetRegister(destination, value.value);
      fault := None;
    }

    /** The operand decoding `peek` and `poke` share. */
    method FetchAddress() returns (address: Option<int>, truncated: bool)
      modifies this
      ensures var spec := EffectiveAddress(old(State()));
        if truncated then spec == Err(Fault(TruncatedInstruction, State()))
        else spec == Ok((address, State()))
    {
      var first := FetchOperands();
      var base: Option<int> := None;
      if first.Some? {
        var (addressType, operandA, operandB) := first.value;
        if addressType == C.AddressTypeCode(C.LiteralAddress) {
          base := Some(operandA as int * 256 + operandB);
        } else if addressType == C.AddressTypeCode(C.RegisterAddress) {
          base := GetRegister(operandA);
        } else {
          base := Some(0);
        }
      }
      var second := FetchOperands();
      if first.None? || second.None? {
        return None, true;
      }
      truncated := false;
      var (offsetType, offsetSign, offsetValue) := second.value;
      var offset: Option<int>;
      if offsetType == C.OffsetTypeCode(C.RegisterOffset) {
        offset := GetRegister(offsetValue);
      } else {
        offset := Some(offsetValue);
      }
      if base.None? || offset.None? {
        address := None;
      } else if offsetSign == C.OffsetSignCode(C.Plus) {
        address := Some(base.value + offset.value);
      } else {
        address := Some(base.value - offset.value);
      }
    }

    method ExecutePeek() returns (fault: Option<Fault>)
      modifies this
      ensures Agrees(fault, State(), PeekInstruction(old(State())))
    {
      var address, truncated := FetchAddress();
      if truncated {
        return Some(Fault(TruncatedInstruction, State()));
      }
      if address.Some? && 0 <= address.value < memory.Length {
        SetRegister(0, memory[address.value]);
        fault := None;
      } else {
        fault := Some(Fault(UndefinedValue, State()));
      }
    }

    method ExecutePoke() returns (fault: Option<Fault>)
      modifies this, memory
      ensures Agrees(fault, State(), PokeInstruction(old(State())))
    {
      var address, truncated := FetchAddress();
      if truncated {
        return Some(Fault(TruncatedInstruction, State()));
      }
      var value := GetRegister(0);
      if address.Some? && 0 <= address.value < memory.Length {
        memory[address.value] := C.ToByte(value.value);
      }
      fault := None;
    }

    method ExecuteCall() returns (fault: Option<Fault>)
      modifies this, memory
      ensures Agrees(fault, State(), CallInstruction(old(State())))
    {
      hide ReadRegister, WriteRegister, PushOnto;
      var callingAddress := Fetch16();
      ghost var m2 := State();
      FrameRegisters(m2, 0);
      var previousFramePointer := GetRegister(6);
      var ipNow := GetRegister(4);
      var returnAddress := ipNow.value + 1;
      var framePointer := GetRegister(5);
      Push(C.LowByte(returnAddress));
      Push(C.HighByte(returnAddress));
      Push(C.LowByte(previousFramePointer.value));
      Push(C.HighByte(previousFramePointer.value));
      ghost var m6 := State();
      FrameRegisters(m6, m2.sp);
      SetRegister(6, framePointer.value);
      if callingAddress.None? {
        return Some(Fault(UndefinedValue, State()));
      }
      FrameRegisters(m6.(fp := m2.sp), callingAddress.value);
      SetRegister(4, callingAddress.value);
      fault := None;
    }

    method ExecuteReturn() returns (fault: Option<Fault>)
      modifies this
      ensures Agrees(fault, State(), ReturnInstruction(old(State())))
    {
      var _ := Pop();
      var framePointerHigh := Pop();
      var framePointerLow := Pop();
      var framePointer := Combine(framePointerHigh, framePointerLow);
      var returnAddressHigh := Pop();
      var returnAddressLow := Pop();
      var returnAddress := Combine(returnAddressHigh, returnAddressLow);
      if framePointer.None? || returnAddress.None? {
        return Some(Fault(UndefinedValue, State()));
      }
      SetRegister(4, returnAddress.value);
      SetRegister(6, framePointer.value);
      fault := None;
    }

    method Execute(opcode: L.Opcode) returns (fault: Option<Fault>)
      modifies this, memory
      ensures Agrees(fault, State(), Executed(old(State()), opcode))
    {
      hide SetInstruction, PeekInstruction, PokeInstruction, CallInstruction, ReturnInstruction, ArithmeticLogic;
      match opcode {
        case Halt =>
          ip := |rom|;
          fault := None;
        case Set =>
          fault := ExecuteSet();
        case Peek =>
          fault := ExecutePeek();
        case Poke =>
          fault := ExecutePoke();
        case Jump =>
          var address := Fetch16();
          if address.None? {
            return Some(Fault(UndefinedValue, State()));
          }
          ip := address.value;
          fault := None;
        case JumpIfZero =>
          var value := GetRegister(0);
          var address := Fetch16();
          fault := None;
          if value == Some(0) {
            if address.None? {
              return Some(Fault(UndefinedValue, State()));
            }
            ip := address.value;
          }
        case JumpIfNotZero =>
          var value := GetRegister(0);
          var address := Fetch16();
          fault := None;
          if value != Some(0) {
            if address.None? {
              return Some(Fault(UndefinedValue, State()));
            }
            ip := address.value;
          }
        case Call =>
          fault := ExecuteCall();
        case Return =>
          fault := ExecuteReturn();
        case Push =>
          var operandType := Fetch();
          var valueOrRegister := Fetch();
          if operandType.None? || valueOrRegister.None? {
            return Some(Fault(TruncatedInstruction, State()));
          }
          var value: Option<int>;
          if operandType.value == C.OperandTypeCode(C.LiteralOperand) {
            value := Some(valueOrRegister.value);
          } else {
            value := GetRegister(valueOrRegister.value);
          }
          Push(OrZero(value));
          fault := None;
        case Pop =>
          var value := Pop();
          if value.None? {
            return Some(Fault(UndefinedValue, State()));
          }
          SetRegister(0, value.value);
          fault := None;
        case _ =>
          fault := ExecuteArithmeticLogic(opcode);
      }
    }

    /** `run(rom)`, for at most `fuel` instructions; ip is not reset. */
    method Run(newRom: seq<Byte>, fuel: nat) returns (o: Outcome)
      modifies this, memory
      ensures o == RunFrom(old(State()).(rom := newRom), fuel)
      ensures State() == Final(o)
    {
      hide Executed;
      rom := newRom;
      var left := fuel;
      while ip < |rom|
        invariant RunFrom(State(), left) == RunFrom(old(State()).(rom := newRom), fuel)
        decreases left
      {
        if left == 0 {
          return OutOfFuel(State());
        }
        ghost var before := State();
        var b := Fetch();
        if b.None? {
          return Faulted(Fault(UnknownOpcode(None), State()));
        }
        match L.FromCode(b.value) {
          case None =>
            return Faulted(Fault(UnknownOpcode(b), State()));
          case Some(opcode) =>
            var fault := Execute(opcode);
            if fault.Some? {
              return Faulted(fault.value);
            }
        }
        assert Step(before) == Ok(State());
        left := left - 1;
      }
      o := Halted(State());
    }
  }
}
