/** The two-pass code generator of the token-based assembler
    (assembler/generator.ts). Pass 1 walks the IR with a running byte
    offset and records each label's offset and each const's operand; pass
    2 encodes every instruction node with those tables. Because every
    encoded instruction has exactly its opcode's width, the offsets of
    pass 1 are the true positions of the labels in the output. */
module Generator {
  import opened Wrappers
  import opened Text
  import opened Tokens
  import opened Errors
  import opened IR
  import C = CoreOpcode

  type Byte = C.Byte

  /** `convertIROffset(offset)`: no offset is the empty offset; otherwise
      kind, sign and value are carried over. */
  function ConvertOffset(o: Option<IROffset>): (r: C.Offset)
    ensures o.None? ==> r == C.EmptyOffset()
    ensures o.Some? ==> (r.value == o.value.value
      && (r.kind == C.RegisterOffset <==> o.value.kind == RegisterOffset)
      && (r.sign == C.Minus <==> o.value.sign == Minus))
  {
    match o
    case None => C.EmptyOffset()
    case Some(off) =>
      C.Offset(if off.kind == LiteralOffset then C.LiteralOffset else C.RegisterOffset,
               if off.sign == Plus then C.Plus else C.Minus,
               off.value)
  }

  /** The typing of a const table: a const is never bound to another
      const (`IRNonConstOperand`). */
  predicate NonConstTable(consts: map<string, IROperand>) {
    forall name :: name in consts ==> !consts[name].value.ConstRef?
  }

  /** The typing of an IR list: no const definition has a const value. */
  predicate NonConstDefinitions(ir: seq<IRNode>) {
    forall k :: 0 <= k < |ir| && ir[k].ConstDefinitionNode? ==> !ir[k].value.value.ConstRef?
  }

  /** The parser only produces IR of that typing. */
  lemma ParsedIsTyped(ts: seq<Token>, i: nat)
    requires LexerOutput(ts) && ProgramFrom(ts, i).Ok?
    ensures NonConstDefinitions(ProgramFrom(ts, i).value)
  {
    ProgramWellFormed(ts, i);
    var ir := ProgramFrom(ts, i).value;
    forall k | 0 <= k < |ir| && ir[k].ConstDefinitionNode?
      ensures !ir[k].value.value.ConstRef?
    {
      assert ir[k] in ir;
    }
  }

  /** The `labels` and `consts` fields. */
  datatype Tables = Tables(labels: map<string, int>, consts: map<string, IROperand>)

  /** The byte width of the instruction nodes of `ir`: the running counter
      `i` of `registerLabelsAndConsts`. */
  function WidthOf(ir: seq<IRNode>): nat {
    if ir == [] then 0
    else
      var last := ir[|ir| - 1];
      WidthOf(ir[..|ir| - 1]) + (if last.InstructionNode? then C.Width(last.opcode) else 0)
  }

  /** One node of pass 1, at byte offset `offset`. */
  function Register(t: Tables, offset: int, node: IRNode): Tables {
    match node
    case InstructionNode(_, _, _) => t
    case LabelDefinitionNode(name, _) => t.(labels := t.labels[name := offset])
    case ConstDefinitionNode(name, value, _) => t.(consts := t.consts[name := value])
    case ImportNode(_, _) => t
  }

  /** `registerLabelsAndConsts(ir)` from the tables `t`. */
  function TablesAfter(t: Tables, ir: seq<IRNode>): (r: Tables)
    ensures NonConstTable(t.consts) && NonConstDefinitions(ir) ==> NonConstTable(r.consts)
  {
    if ir == [] then t
    else
      var init := ir[..|ir| - 1];
      assert NonConstDefinitions(ir) ==> NonConstDefinitions(init) by {
        forall k | 0 <= k < |init| ensures init[k] == ir[k] {}
      }
      Register(TablesAfter(t, init), WidthOf(init), ir[|ir| - 1])
  }

  lemma PrefixOfPrefix<T>(s: seq<T>, k: nat)
    requires k < |s|
    ensures s[..k + 1][..k] == s[..k] && s[..k + 1][k] == s[k]
  {
  }

  /** A label binds the total width of all instruction nodes before it,
      unless a later definition of the same name rebinds it; a label no
      node defines keeps its old binding. */
  lemma {:induction false} LabelBinding(t: Tables, ir: seq<IRNode>, k: nat)
    requires k < |ir| && ir[k].LabelDefinitionNode?
    requires forall m :: k < m < |ir| ==> !(ir[m].LabelDefinitionNode? && ir[m].name == ir[k].name)
    ensures ir[k].name in TablesAfter(t, ir).labels
    ensures TablesAfter(t, ir).labels[ir[k].name] == WidthOf(ir[..k])
    decreases |ir|
  {
    var init := ir[..|ir| - 1];
    if k == |ir| - 1 {
      assert init == ir[..k];
    } else {
      LabelBinding(t, init, k);
      assert init[..k] == ir[..k];
    }
  }

  /** A const binds the operand of its last definition. */
  lemma {:induction false} ConstBinding(t: Tables, ir: seq<IRNode>, k: nat)
    requires k < |ir| && ir[k].ConstDefinitionNode?
    requires forall m :: k < m < |ir| ==> !(ir[m].ConstDefinitionNode? && ir[m].name == ir[k].name)
    ensures ir[k].name in TablesAfter(t, ir).consts
    ensures TablesAfter(t, ir).consts[ir[k].name] == ir[k].value
    decreases |ir|
  {
    if k < |ir| - 1 {
      ConstBinding(t, ir[..|ir| - 1], k);
    }
  }

  // ---------------------------------------------------------------------
  // Resolving operands

  const UndefinedLabel: string := "undefined label"

  /** `resolveLabelAddress(name)` */
  function ResolveLabelAddress(t: Tables, name: string): (r: Result<int, Failure>)
    ensures r.Ok? <==> name in t.labels
    ensures r.Ok? ==> r.value == t.labels[name]
    ensures r.Err? ==> r.error == Plain(UndefinedLabel)
  {
    if name in t.labels then Ok(t.labels[name]) else Err(Plain(UndefinedLabel))
  }

  /** `resolveConst(operand)`: the bound operand, carrying the reference's
      own offset (none, when the reference has none); an unknown name is a
      reference error on the reference's token. */
  function ResolveConst(t: Tables, operand: IROperand): (r: Result<IROperand, Failure>)
    requires operand.value.ConstRef?
    ensures r.Ok? <==> operand.value.name in t.consts
    ensures r.Ok? ==> (r.value.value == t.consts[operand.value.name].value
      && r.value.token == t.consts[operand.value.name].token
      && r.value.offset == operand.offset)
    ensures r.Err? ==> r.error == Parse(ReferenceError(operand.token))
    ensures NonConstTable(t.consts) && r.Ok? ==> !r.value.value.ConstRef?
  {
    if operand.value.name !in t.consts then Err(Parse(ReferenceError(operand.token)))
    else Ok(t.consts[operand.value.name].(offset := operand.offset))
  }

  /** A const reference replaced by its binding; any other operand as is. */
  function Substitute(t: Tables, operand: IROperand): (r: Result<IROperand, Failure>)
    ensures NonConstTable(t.consts) && r.Ok? ==> !r.value.value.ConstRef?
    ensures !operand.value.ConstRef? ==> r == Ok(operand)
  {
    if operand.value.ConstRef? then ResolveConst(t, operand) else Ok(operand)
  }

  /** `${register}`: a register prints as its number. */
  function AddressMessage(r: C.Register): string {
    IntToString(C.RegisterCode(r)) + " can't be used as an address"
  }

  /** `resolveAddress(operand)`: after const substitution, a register is a
      type error, a label is its bound address (an unbound one a plain
      "undefined label" error) and an integer is itself. */
  function ResolveAddress(t: Tables, operand: IROperand): (r: Result<int, Failure>)
    requires NonConstTable(t.consts)
    ensures operand.value.IntegerValue? ==> r == Ok(operand.value.n)
    ensures operand.value.LabelRef? ==> r == ResolveLabelAddress(t, operand.value.name)
    ensures operand.value.RegisterValue? ==> r == Err(Parse(TypeError(operand.token, AddressMessage(operand.value.register))))
    ensures operand.value.ConstRef? && operand.value.name !in t.consts ==> r == Err(Parse(ReferenceError(operand.token)))
    ensures operand.value.ConstRef? && operand.value.name in t.consts ==>
      var bound := t.consts[operand.value.name];
      (match bound.value
       case IntegerValue(n) => r == Ok(n)
       case LabelRef(target) => r == ResolveLabelAddress(t, target)
       case RegisterValue(reg) => r == Err(Parse(TypeError(bound.token, AddressMessage(reg))))
       case ConstRef(_) => false)
  {
    var o :- Substitute(t, operand);
    match o.value
    case RegisterValue(reg) => Err(Parse(TypeError(o.token, AddressMessage(reg))))
    case LabelRef(name) => ResolveLabelAddress(t, name)
    case IntegerValue(n) => Ok(n)
  }

  // ---------------------------------------------------------------------
  // Encoding one instruction

  /** The message of the JavaScript TypeError raised when a missing
      operand's `type` is read. */
  const MissingOperandRead: string := "Cannot read properties of undefined (reading 'type')"

  function At(operands: seq<IROperand>, k: nat): Option<IROperand> {
    if k < |operands| then Some(operands[k]) else None
  }

  /** The type byte and the value byte of a register-or-literal operand:
      `[Register, its number]` or `[Literal, the integer modulo 256]`;
      anything else has no encoding. */
  function RightOperandBytes(v: OperandValue): (b: seq<Byte>)
    ensures |b| == 2
    ensures b[0] == C.OperandTypeCode(if v.RegisterValue? then C.RegisterOperand else C.LiteralOperand)
    ensures v.RegisterValue? ==> C.RegisterFromCode(b[1]) == Some(v.register)
    ensures v.IntegerValue? ==> (b[1] - v.n) % 256 == 0 && (0 <= v.n < 256 ==> b[1] == v.n)
  {
    match v
    case RegisterValue(reg) =>
      C.RegisterCodeRoundTrip(reg);
      [C.OperandTypeCode(C.RegisterOperand), C.RegisterCode(reg)]
    case IntegerValue(n) => [C.OperandTypeCode(C.LiteralOperand), C.ToByte(n)]
    case _ => [C.OperandTypeCode(C.LiteralOperand), 0]
  }

  /** `generateArithmeticLogicInstruction`: a register on the left, a
      register or literal (after const substitution) on the right. */
  function GenerateArithmeticLogic(t: Tables, op: C.Opcode, operands: seq<IROperand>): (r: Result<seq<Byte>, Failure>)
    requires NonConstTable(t.consts)
    ensures r.Ok? <==> (|operands| >= 2 && operands[0].value.RegisterValue? &&
      Substitute(t, operands[1]).Ok? && !Substitute(t, operands[1]).value.value.LabelRef?)
    ensures r.Ok? ==> var right := Substitute(t, operands[1]).value.value;
      r.value == [C.OpcodeCode(op), C.RegisterCode(operands[0].value.register)] + RightOperandBytes(right)
    ensures |operands| >= 2 && operands[1].value.LabelRef? ==> r.Err?
  {
    var left :- At(operands, 0).ToResult(Plain("generateALU: left missing"));
    if !left.value.RegisterValue? then Err(Plain("generateALU: left not register"))
    else
      var given :- At(operands, 1).ToResult(Plain("generateALU: right missing"));
      var right :- Substitute(t, given);
      match right.value
      case LabelRef(_) => Err(Plain("generateALU: right can't be label"))
      case RegisterValue(reg) =>
        Ok([C.OpcodeCode(op), C.RegisterCode(left.value.register), C.OperandTypeCode(C.RegisterOperand), C.RegisterCode(reg)])
      case IntegerValue(n) =>
        Ok([C.OpcodeCode(op), C.RegisterCode(left.value.register), C.OperandTypeCode(C.LiteralOperand), C.ToByte(n)])
  }

  /** `generateSetInstruction`: consts are not substituted here. */
  function GenerateSet(operands: seq<IROperand>): (r: Result<seq<Byte>, Failure>)
    ensures r.Ok? <==> (|operands| >= 2 && operands[0].value.RegisterValue? &&
      (operands[1].value.IntegerValue? || operands[1].value.RegisterValue?))
    ensures r.Ok? ==> |operands| >= 2 && operands[0].value.RegisterValue? && |r.value| == 4
    ensures r.Ok? ==> operands[1].value.IntegerValue? || operands[1].value.RegisterValue?
    ensures r.Ok? ==> C.DecodeSet(r.value) == Some((operands[0].value.register,
      if operands[1].value.IntegerValue? then C.LiteralValue(C.ToByte(operands[1].value.n)) else C.RegisterValue(operands[1].value.register)))
  {
    var destination :- At(operands, 0).ToResult(Plain(MissingOperandRead));
    if !destination.value.RegisterValue? then Err(Plain("set failed"))
    else
      var source :- At(operands, 1).ToResult(Plain(MissingOperandRead));
      match source.value
      case IntegerValue(n) =>
        C.SetRoundTrip(destination.value.register, C.LiteralValue(n));
        Ok(C.EncodeSet(destination.value.register, C.LiteralValue(n)))
      case RegisterValue(reg) =>
        C.SetRoundTrip(destination.value.register, C.RegisterValue(reg));
        Ok(C.EncodeSet(destination.value.register, C.RegisterValue(reg)))
      case _ => Err(Plain("set failed"))
  }

  /** `generateMemoryAccessInstruction`: a register address is encoded as
      a register; anything else is resolved to a literal address; the
      offset is the operand's own, or the empty offset. */
  function GenerateMemoryAccess(t: Tables, op: C.Opcode, operands: seq<IROperand>): (r: Result<seq<Byte>, Failure>)
    requires NonConstTable(t.consts) && C.IsMemoryAccess(op)
    ensures r.Ok? ==> |operands| >= 1 && |r.value| == 7
    ensures |operands| >= 1 && operands[0].value.RegisterValue? ==> r.Ok?
    ensures r.Ok? && operands[0].value.RegisterValue? ==>
      r.value == C.EncodeMemoryAccess(op, C.RegisterAt(operands[0].value.register), ConvertOffset(operands[0].offset))
    ensures |operands| >= 1 && !operands[0].value.RegisterValue? ==>
      match ResolveAddress(t, operands[0])
      case Ok(a) => r == Ok(C.EncodeMemoryAccess(op, C.LiteralAt(a), ConvertOffset(operands[0].offset)))
      case Err(e) => r == Err(e)
  {
    var address :- At(operands, 0).ToResult(Plain("expected operand"));
    if address.value.RegisterValue? then
      Ok(C.EncodeMemoryAccess(op, C.RegisterAt(address.value.register), ConvertOffset(address.offset)))
    else
      var a :- ResolveAddress(t, address);
      Ok(C.EncodeMemoryAccess(op, C.LiteralAt(a), ConvertOffset(address.offset)))
  }

  /** `generateBranchingInstruction`: the resolved address, big-endian. */
  function GenerateBranching(t: Tables, op: C.Opcode, operands: seq<IROperand>): (r: Result<seq<Byte>, Failure>)
    requires NonConstTable(t.consts) && C.IsBranching(op)
    ensures r.Ok? <==> |operands| >= 1 && ResolveAddress(t, operands[0]).Ok?
    ensures r.Ok? ==> (|operands| >= 1 && ResolveAddress(t, operands[0]).Ok? && |r.value| == 3
      && C.DecodeBranching(r.value) == Some((op, ResolveAddress(t, operands[0]).value % 65536)))
    ensures |operands| >= 1 && operands[0].value.RegisterValue? ==> r.Err? && r.error.Parse? && r.error.error.TypeError?
  {
    var address :- At(operands, 0).ToResult(Plain("expected operand"));
    var a :- ResolveAddress(t, address);
    C.BranchingRoundTrip(op, a);
    Ok(C.EncodeBranching(op, a))
  }

  /** `generatePushInstruction`: a register or literal byte, after const
      substitution; a label is rejected. */
  function GeneratePush(t: Tables, operands: seq<IROperand>): (r: Result<seq<Byte>, Failure>)
    requires NonConstTable(t.consts)
    ensures r.Ok? <==> |operands| >= 1 && Substitute(t, operands[0]).Ok? && !Substitute(t, operands[0]).value.value.LabelRef?
    ensures r.Ok? ==> r.value == [C.OpcodeCode(C.Push)] + RightOperandBytes(Substitute(t, operands[0]).value.value)
    ensures |operands| >= 1 && operands[0].value.IntegerValue? ==>
      r == Ok([C.OpcodeCode(C.Push), C.OperandTypeCode(C.LiteralOperand), C.ToByte(operands[0].value.n)])
    ensures |operands| >= 1 && operands[0].value.LabelRef? ==> r == Err(Plain("invalid operand"))
  {
    var given :- At(operands, 0).ToResult(Plain("expected operand"));
    var operand :- Substitute(t, given);
    match operand.value
    case LabelRef(_) => Err(Plain("invalid operand"))
    case RegisterValue(reg) => Ok([C.OpcodeCode(C.Push), C.OperandTypeCode(C.RegisterOperand), C.RegisterCode(reg)])
    case IntegerValue(n) => Ok([C.OpcodeCode(C.Push), C.OperandTypeCode(C.LiteralOperand), C.ToByte(n)])
  }

  /** `generatePopInstruction`: register A when no operand is given. */
  function GeneratePop(operands: seq<IROperand>): (r: Result<seq<Byte>, Failure>)
    ensures operands == [] ==> r == Ok([C.OpcodeCode(C.Pop), C.RegisterCode(C.A)])
    ensures operands != [] && operands[0].value.RegisterValue? ==>
      r == Ok([C.OpcodeCode(C.Pop), C.RegisterCode(operands[0].value.register)])
    ensures r.Ok? ==> |r.value| == 2 && r.value[0] == C.OpcodeCode(C.Pop)
    ensures r.Ok? <==> operands == [] || operands[0].value.RegisterValue?
  {
    match At(operands, 0)
    case None => Ok([C.OpcodeCode(C.Pop), C.RegisterCode(C.A)])
    case Some(operand) =>
      if operand.value.RegisterValue? then Ok([C.OpcodeCode(C.Pop), C.RegisterCode(operand.value.register)])
      else Err(Plain("invalid operand"))
  }

  /** How a non-integer operand value prints inside the syscall message. */
  function ValueText(v: OperandValue): string {
    match v
    case IntegerValue(n) => IntToString(n)
    case RegisterValue(reg) => IntToString(C.RegisterCode(reg))
    case LabelRef(name) => name
    case ConstRef(name) => name
  }

  /** `generateSyscallInstruction`: after const substitution the operand
      must be an integer, else a type error on the substituted operand's
      token. */
  function GenerateSyscall(t: Tables, operands: seq<IROperand>): (r: Result<seq<Byte>, Failure>)
    requires NonConstTable(t.consts)
    ensures r.Ok? <==> |operands| >= 1 && Substitute(t, operands[0]).Ok? && Substitute(t, operands[0]).value.value.IntegerValue?
    ensures r.Ok? ==> r.value == [C.OpcodeCode(C.SysCall), C.ToByte(Substitute(t, operands[0]).value.value.n)]
    ensures |operands| >= 1 && Substitute(t, operands[0]).Ok? && !Substitute(t, operands[0]).value.value.IntegerValue? ==>
      r.Err? && r.error.Parse? && r.error.error.TypeError? && r.error.error.token == Substitute(t, operands[0]).value.token
  {
    var given :- At(operands, 0).ToResult(Plain("expected operand"));
    var operand :- Substitute(t, given);
    if !operand.value.IntegerValue? then
      Err(Parse(TypeError(operand.token, "'" + ValueText(operand.value) + "' is not a valid operand for syscall")))
    else Ok([C.OpcodeCode(C.SysCall), C.ToByte(operand.value.n)])
  }

  /** `generateInstruction(token)`: every successful encoding starts with
      the opcode and is exactly as wide as the opcode's table width. */
  function GenerateInstruction(t: Tables, node: IRNode): (r: Result<seq<Byte>, Failure>)
    requires NonConstTable(t.consts) && node.InstructionNode?
    ensures r.Ok? ==> |r.value| == C.Width(node.opcode) && r.value[0] == C.OpcodeCode(node.opcode)
  {
    var op := node.opcode;
    var operands := node.operands;
    match op
    case Halt => Ok([C.OpcodeCode(C.Halt)])
    case Set => GenerateSet(operands)
    case Peek => GenerateMemoryAccess(t, op, operands)
    case Poke => GenerateMemoryAccess(t, op, operands)
    case Jump => GenerateBranching(t, op, operands)
    case JumpIfZero => GenerateBranching(t, op, operands)
    case JumpIfNotZero => GenerateBranching(t, op, operands)
    case Call => GenerateBranching(t, op, operands)
    case Return => Ok([C.OpcodeCode(C.Return)])
    case Push => GeneratePush(t, operands)
    case Pop => GeneratePop(operands)
    case SysCall => GenerateSyscall(t, operands)
    case _ => GenerateArithmeticLogic(t, op, operands)
  }

  // ---------------------------------------------------------------------
  // Pass 2

  /** What pass 2 appends to `program` for `ir`: the encodings of the
      instruction nodes in order, up to the first one that fails, and that
      failure. Label, const and import nodes emit nothing. */
  datatype Emitted = Emitted(bytes: seq<Byte>, failure: Option<Failure>)

  /** One node of pass 2, after what the nodes before it emitted. */
  function EmitNode(t: Tables, before: Emitted, node: IRNode): (r: Emitted)
    requires NonConstTable(t.consts)
    ensures before.failure.Some? ==> r == before
    ensures r.failure.None? ==> before.failure.None? && |r.bytes| == |before.bytes| + (if node.InstructionNode? then C.Width(node.opcode) else 0)
  {
    if before.failure.Some? || !node.InstructionNode? then before
    else match GenerateInstruction(t, node)
      case Ok(bytes) => Emitted(before.bytes + bytes, None)
      case Err(f) => Emitted(before.bytes, Some(f))
  }

  function Emit(t: Tables, ir: seq<IRNode>): (r: Emitted)
    requires NonConstTable(t.consts)
    ensures r.failure.None? ==> |r.bytes| == WidthOf(ir)
  {
    if ir == [] then Emitted([], None)
    else EmitNode(t, Emit(t, ir[..|ir| - 1]), ir[|ir| - 1])
  }

  /** What a node emits does not depend on the bytes before it. */
  lemma EmitNodeShift(t: Tables, x: seq<Byte>, e: Emitted, node: IRNode)
    requires NonConstTable(t.consts)
    ensures EmitNode(t, Emitted(x + e.bytes, e.failure), node)
      == Emitted(x + EmitNode(t, e, node).bytes, EmitNode(t, e, node).failure)
  {
    if e.failure.None? && node.InstructionNode? && GenerateInstruction(t, node).Ok? {
      assert x + e.bytes + GenerateInstruction(t, node).value == x + (e.bytes + GenerateInstruction(t, node).value);
    }
  }

  /** Emitting a concatenation emits the first part, then the second. */
  lemma {:induction false} EmitConcat(t: Tables, a: seq<IRNode>, b: seq<IRNode>)
    requires NonConstTable(t.consts) && Emit(t, a).failure.None?
    ensures Emit(t, a + b) == Emitted(Emit(t, a).bytes + Emit(t, b).bytes, Emit(t, b).failure)
    decreases |b|
  {
    if b == [] {
      assert a + b == a;
    } else {
      var b' := b[..|b| - 1];
      assert (a + b)[..|a + b| - 1] == a + b';
      assert (a + b)[|a + b| - 1] == b[|b| - 1];
      EmitConcat(t, a, b');
      EmitNodeShift(t, Emit(t, a).bytes, Emit(t, b'), b[|b| - 1]);
    }
  }

  /** After the first failure nothing more is emitted. */
  lemma {:induction false} EmitFailureSticks(t: Tables, a: seq<IRNode>, b: seq<IRNode>)
    requires NonConstTable(t.consts) && Emit(t, a).failure.Some?
    ensures Emit(t, a + b) == Emit(t, a)
    decreases |b|
  {
    if b == [] {
      assert a + b == a;
    } else {
      assert (a + b)[..|a + b| - 1] == a + b[..|b| - 1];
      EmitFailureSticks(t, a, b[..|b| - 1]);
    }
  }

  /** The pass-1 offset of a label is its true position in the pass-2
      output: the code there is exactly the code of the nodes after the
      label. */
  lemma LabelAddressesAreOffsets(t0: Tables, ir: seq<IRNode>, k: nat)
    requires NonConstTable(t0.consts) && NonConstDefinitions(ir)
    requires k < |ir| && ir[k].LabelDefinitionNode?
    requires forall m :: k < m < |ir| ==> !(ir[m].LabelDefinitionNode? && ir[m].name == ir[k].name)
    requires Emit(TablesAfter(t0, ir), ir).failure.None?
    ensures ir[k].name in TablesAfter(t0, ir).labels
    ensures var t := TablesAfter(t0, ir);
      var address := t.labels[ir[k].name];
      0 <= address <= |Emit(t, ir).bytes|
      && Emit(t, ir).bytes[..address] == Emit(t, ir[..k]).bytes
      && Emit(t, ir).bytes[address..] == Emit(t, ir[k..]).bytes
  {
    var t := TablesAfter(t0, ir);
    LabelBinding(t0, ir, k);
    assert ir == ir[..k] + ir[k..];
    if Emit(t, ir[..k]).failure.Some? {
      EmitFailureSticks(t, ir[..k], ir[k..]);
    }
    EmitConcat(t, ir[..k], ir[k..]);
  }

  /** What a fresh generator's `run(ir)` returns: the code of `ir`
      assembled with the tables of `ir` alone. Its length is the width of
      the instruction nodes, and the labels sit at the offsets of
      `LabelAddressesAreOffsets`. */
  function Assemble(ir: seq<IRNode>): (r: Result<seq<Byte>, Failure>)
    requires NonConstDefinitions(ir)
    ensures r.Ok? ==> |r.value| == WidthOf(ir)
    ensures r.Ok? <==> Emit(TablesAfter(Tables(map[], map[]), ir), ir).failure.None?
  {
    var e := Emit(TablesAfter(Tables(map[], map[]), ir), ir);
    if e.failure.None? then Ok(e.bytes) else Err(e.failure.value)
  }

  // ---------------------------------------------------------------------
  // The generator object

  class CodeGenerator {
    var labels: map<string, int>
    var consts: map<string, IROperand>
    var program: seq<Byte>

    constructor()
      ensures labels == map[] && consts == map[] && program == []
    {
      labels := map[];
      consts := map[];
      program := [];
    }

    /** The two tables as one value. */
    function State(): Tables
      reads this
    {
      Tables(labels, consts)
    }

    predicate Valid()
      reads this
    {
      NonConstTable(consts)
    }

    /** Pass 1. */
    method RegisterLabelsAndConsts(ir: seq<IRNode>)
      requires Valid() && NonConstDefinitions(ir)
      modifies this
      ensures Valid() && program == old(program)
      ensures State() == TablesAfter(old(State()), ir)
    {
      var i := 0;
      var k := 0;
      while k < |ir|
        invariant 0 <= k <= |ir|
        invariant i == WidthOf(ir[..k]) && program == old(program)
        invariant State() == TablesAfter(old(State()), ir[..k])
        invariant Valid()
      {
        PrefixOfPrefix(ir, k);
        assert NonConstDefinitions(ir[..k + 1]) by {
          forall m | 0 <= m < k + 1 ensures ir[..k + 1][m] == ir[m] {}
        }
        match ir[k] {
          case InstructionNode(op, _, _) =>
            i := i + C.Width(op);
          case LabelDefinitionNode(name, _) =>
            labels := labels[name := i];
          case ConstDefinitionNode(name, value, _) =>
            consts := consts[name := value];
          case ImportNode(_, _) =>
        }
        k := k + 1;
      }
      assert ir[..k] == ir;
    }

    /** `pushInstruction(bytes)` */
    method PushInstruction(bytes: seq<Byte>)
      modifies this
      ensures program == old(program) + bytes
      ensures labels == old(labels) && consts == old(consts)
    {
      program := program + bytes;
    }

    /** `run(ir)`: pass 1 then pass 2; the result is the whole `program`,
      including what earlier runs left there. */
    method Run(ir: seq<IRNode>) returns (r: Result<seq<Byte>, Failure>)
      requires Valid() && NonConstDefinitions(ir)
      modifies this
      ensures Valid() && State() == TablesAfter(old(State()), ir)
      ensures program == old(program) + Emit(State(), ir).bytes
      ensures r == (match Emit(State(), ir).failure
                    case None => Ok(program)
                    case Some(f) => Err(f))
    {
      hide GenerateInstruction, GenerateArithmeticLogic, GenerateSet, GenerateMemoryAccess, GenerateBranching, GeneratePush, GeneratePop, GenerateSyscall, TablesAfter;
      RegisterLabelsAndConsts(ir);
      var t := State();
      ghost var start := program;
      var k := 0;
      while k < |ir|
        invariant 0 <= k <= |ir| && Valid() && State() == t
        invariant Emit(t, ir[..k]).failure.None?
        invariant program == start + Emit(t, ir[..k]).bytes
      {
        PrefixOfPrefix(ir, k);
        var node := ir[k];
        if node.InstructionNode? {
          var bytes := GenerateInstruction(t, node);
          if bytes.Err? {
            assert ir[..k + 1] + ir[k + 1..] == ir;
            EmitFailureSticks(t, ir[..k + 1], ir[k + 1..]);
            return Err(bytes.error);
          }
          PushInstruction(bytes.value);
        }
        k := k + 1;
      }
      assert ir[..k] == ir;
      return Ok(program);
    }
  }
}
