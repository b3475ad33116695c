/** The plain disassembler (dissasembler.ts): it walks a program encoded
    with the older opcode table instruction by instruction and prints one
    line per instruction, the opcode's name followed by its operand bytes
    in decimal. */
module Disassembler {
  import opened Wrappers
  import opened Text
  import C = CoreOpcode
  import L = LegacyOpcode

  /** `${program[k]}`: the byte in decimal, or "undefined" when the
      instruction runs past the end of the program. */
  function ByteText(program: seq<C.Byte>, k: nat): string {
    if k < |program| then NatToString(program[k]) else "undefined"
  }

  /** The text of the `n` operand bytes from `k` on, each after a space. */
  function OperandsText(program: seq<C.Byte>, k: nat, n: nat): string
    decreases n
  {
    if n == 0 then "" else OperandsText(program, k, n - 1) + " " + ByteText(program, k + n - 1)
  }

  /** The line printed for the instruction `op` that starts at `ip`. */
  function Line(program: seq<C.Byte>, ip: nat, op: L.Opcode): string {
    L.Name(op) + OperandsText(program, ip + 1, L.Width(op) - 1) + "\n"
  }

  lemma WidthPositive(op: L.Opcode)
    ensures L.Width(op) >= 1
  {
  }

  /** What `run` returns when the walk is at `ip` with `out` printed so
      far: the whole listing, or the message it throws at the first byte
      that is not an opcode. */
  function DisassembleFrom(program: seq<C.Byte>, ip: nat, out: string): Result<string, string>
    decreases |program| - ip
  {
    if ip >= |program| then Ok(out)
    else match L.FromCode(program[ip])
      case None => Err("unknown opcode:" + NatToString(program[ip]) + ", after: " + out)
      case Some(op) =>
        WidthPositive(op);
        DisassembleFrom(program, ip + L.Width(op), out + Line(program, ip, op))
  }

  /** One instruction of the walk. */
  lemma Step(program: seq<C.Byte>, ip: nat, out: string, op: L.Opcode)
    requires ip < |program| && L.FromCode(program[ip]) == Some(op)
    ensures DisassembleFrom(program, ip, out) == DisassembleFrom(program, ip + L.Width(op), out + Line(program, ip, op))
  {
  }

  /** Past the last byte the walk is over. */
  lemma StepEnd(program: seq<C.Byte>, ip: nat, out: string)
    requires ip >= |program|
    ensures DisassembleFrom(program, ip, out) == Ok(out)
  {
  }

  /** A byte that is not an opcode ends the walk. */
  lemma StepUnknown(program: seq<C.Byte>, ip: nat, out: string)
    requires ip < |program| && L.FromCode(program[ip]).None?
    ensures DisassembleFrom(program, ip, out) == Err("unknown opcode:" + NatToString(program[ip]) + ", after: " + out)
  {
  }

  /** The inner loop of both disassemblers: the `n` operand bytes from
      `ip` on appended to `line`, and the address after them. */
  method AppendOperands(program: seq<C.Byte>, line: string, ip: nat, n: nat) returns (r: string, next: nat)
    ensures r == line + OperandsText(program, ip, n)
    ensures next == ip + n
  {
    r, next := line, ip;
    assert r == line + OperandsText(program, ip, 0);
    for i := 0 to n
      invariant next == ip + i
      invariant r == line + OperandsText(program, ip, i)
    {
      r := r + " " + ByteText(program, next);
      next := next + 1;
    }
  }

  /** `HackyDisassembler.run`. */
  method Run(program: seq<C.Byte>) returns (r: Result<string, string>)
    ensures r == DisassembleFrom(program, 0, "")
  {
    hide DisassembleFrom, L.Name, L.Width, L.FromCode, NatToString;
    var out := "";
    var ip: nat := 0;
    while ip < |program|
      invariant DisassembleFrom(program, ip, out) == DisassembleFrom(program, 0, "")
      decreases |program| - ip
    {
      var line := "";
      var opcode := L.FromCode(program[ip]);
      if opcode.None? {
        StepUnknown(program, ip, out);
        return Err("unknown opcode:" + NatToString(program[ip]) + ", after: " + out);
      }
      ghost var start := ip;
      Step(program, ip, out, opcode.value);
      WidthPositive(opcode.value);
      line := line + L.Name(opcode.value);
      ip := ip + 1;
      var numOperands := L.Width(opcode.value) - 1;
      line, ip := AppendOperands(program, line, ip, numOperands);
      assert out + line + "\n" == out + Line(program, start, opcode.value);
      out := out + line + "\n";
    }
    StepEnd(program, ip, out);
    return Ok(out);
  }

  /** An empty program disassembles to the empty text. */
  lemma EmptyProgram()
    ensures DisassembleFrom([], 0, "") == Ok("")
  {
  }

  // ---------------------------------------------------------------------
  // Programs made of whole instructions

  /** One instruction as it is laid out in memory: an opcode and the
      operand bytes after it. */
  datatype Instruction = Instruction(op: L.Opcode, operands: seq<C.Byte>)

  predicate WellFormed(i: Instruction) {
    |i.operands| == L.Width(i.op) - 1
  }

  predicate AllWellFormed(ins: seq<Instruction>) {
    forall k :: 0 <= k < |ins| ==> WellFormed(ins[k])
  }

  /** The bytes of a sequence of instructions, one after another. */
  function Encode(ins: seq<Instruction>): (bytes: seq<C.Byte>)
    ensures AllWellFormed(ins) ==> |bytes| == SumOfWidths(ins)
  {
    if ins == [] then [] else [L.Code(ins[0].op)] + ins[0].operands + Encode(ins[1..])
  }

  function SumOfWidths(ins: seq<Instruction>): nat {
    if ins == [] then 0 else L.Width(ins[0].op) + SumOfWidths(ins[1..])
  }

  /** The operand bytes as the listing shows them, independently of where
      they stand in the program. */
  function BytesText(bytes: seq<C.Byte>): string {
    if bytes == [] then "" else BytesText(bytes[..|bytes| - 1]) + " " + NatToString(bytes[|bytes| - 1])
  }

  /** The listing of a sequence of instructions. */
  function Listing(ins: seq<Instruction>): string {
    if ins == [] then "" else L.Name(ins[0].op) + BytesText(ins[0].operands) + "\n" + Listing(ins[1..])
  }

  /** Operand bytes that are all inside the program print as themselves. */
  lemma {:induction false} OperandsInside(program: seq<C.Byte>, k: nat, bytes: seq<C.Byte>)
    requires k + |bytes| <= |program| && program[k..k + |bytes|] == bytes
    ensures OperandsText(program, k, |bytes|) == BytesText(bytes)
    decreases |bytes|
  {
    if bytes != [] {
      var n := |bytes|;
      assert program[k..k + n - 1] == bytes[..n - 1];
      OperandsInside(program, k, bytes[..n - 1]);
      assert program[k + n - 1] == bytes[n - 1];
    }
  }

  /** One whole instruction at `|p|`: the walk prints its line and moves
      past its operands. */
  lemma WalkInstruction(p: seq<C.Byte>, i: Instruction, s: seq<C.Byte>, out: string)
    requires WellFormed(i)
    ensures var program := p + [L.Code(i.op)] + i.operands + s;
      DisassembleFrom(program, |p|, out) == DisassembleFrom(program, |p| + L.Width(i.op), out + L.Name(i.op) + BytesText(i.operands) + "\n")
  {
    hide DisassembleFrom, L.Name, L.FromCode, NatToString, OperandsText, BytesText;
    var program := p + [L.Code(i.op)] + i.operands + s;
    assert program[|p|] == L.Code(i.op);
    L.CodeRoundTrip(i.op);
    Step(program, |p|, out, i.op);
    assert program[|p| + 1..|p| + 1 + |i.operands|] == i.operands;
    OperandsInside(program, |p| + 1, i.operands);
    assert out + Line(program, |p|, i.op) == out + L.Name(i.op) + BytesText(i.operands) + "\n";
  }

  /** A program of whole instructions, split after its first instruction. */
  lemma SplitFirst(p: seq<C.Byte>, ins: seq<Instruction>, s: seq<C.Byte>)
    requires AllWellFormed(ins) && ins != []
    ensures WellFormed(ins[0]) && AllWellFormed(ins[1..])
    ensures var p' := p + [L.Code(ins[0].op)] + ins[0].operands;
      && p + Encode(ins) + s == p + [L.Code(ins[0].op)] + ins[0].operands + (Encode(ins[1..]) + s)
      && p + Encode(ins) + s == p' + Encode(ins[1..]) + s
      && |p'| + |Encode(ins[1..])| == |p| + |Encode(ins)|
  {
    var i, rest := ins[0], ins[1..];
    assert AllWellFormed(rest) by {
      forall k | 0 <= k < |rest| ensures WellFormed(rest[k]) {
        assert rest[k] == ins[k + 1];
      }
    }
    var head := [L.Code(i.op)] + i.operands;
    var tail := Encode(rest);
    assert Encode(ins) == head + tail;
    hide Encode;
    calc {
      p + Encode(ins) + s;
      p + (head + tail) + s;
      { assert p + (head + tail) == p + head + tail; }
      p + head + tail + s;
      { assert p + head + tail + s == p + head + (tail + s); }
      p + head + (tail + s);
    }
    assert p + head == p + [L.Code(i.op)] + i.operands;
  }

  /** Disassembling whole instructions that start at `|p|` prints their
      listing and leaves the walk at the first byte after them. */
  lemma {:induction false} WalkInstructions(p: seq<C.Byte>, ins: seq<Instruction>, s: seq<C.Byte>, out: string)
    requires AllWellFormed(ins)
    ensures DisassembleFrom(p + Encode(ins) + s, |p|, out) == DisassembleFrom(p + Encode(ins) + s, |p| + |Encode(ins)|, out + Listing(ins))
    decreases |ins|
  {
    hide DisassembleFrom, L.Name, L.FromCode, NatToString, OperandsText;
    if ins == [] {
      assert p + Encode(ins) + s == p + s;
      assert out + Listing(ins) == out;
    } else {
      var i, rest := ins[0], ins[1..];
      assert Listing(ins) == L.Name(i.op) + BytesText(i.operands) + "\n" + Listing(rest);
      SplitFirst(p, ins, s);
      hide Encode, Listing, BytesText, AllWellFormed;
      var program := p + Encode(ins) + s;
      var p' := p + [L.Code(i.op)] + i.operands;
      var line := L.Name(i.op) + BytesText(i.operands) + "\n";
      WalkInstruction(p, i, Encode(rest) + s, out);
      assert out + L.Name(i.op) + BytesText(i.operands) + "\n" == out + line;
      assert |p| + L.Width(i.op) == |p'|;
      assert DisassembleFrom(program, |p|, out) == DisassembleFrom(program, |p'|, out + line);
      WalkInstructions(p', rest, s, out + line);
      assert out + line + Listing(rest) == out + Listing(ins);
    }
  }

  /** Each instruction takes exactly its width, so the walk stops only at
      instruction boundaries: a program of whole instructions prints their
      listing, one line each. */
  lemma DisassembleEncoded(ins: seq<Instruction>)
    requires AllWellFormed(ins)
    ensures DisassembleFrom(Encode(ins), 0, "") == Ok(Listing(ins))
  {
    hide DisassembleFrom, L.Name, L.FromCode, NatToString, OperandsText;
    WalkInstructions([], ins, [], "");
    StepEnd(Encode(ins), |Encode(ins)|, Listing(ins));
    assert [] + Encode(ins) + [] == Encode(ins);
    assert "" + Listing(ins) == Listing(ins);
  }

  /** A byte that is not an opcode, where an instruction should start,
      ends the walk with an error naming it and the text printed so far. */
  lemma UnknownOpcode(ins: seq<Instruction>, b: C.Byte, s: seq<C.Byte>)
    requires AllWellFormed(ins) && b >= 20
    ensures DisassembleFrom(Encode(ins) + [b] + s, 0, "") == Err("unknown opcode:" + NatToString(b) + ", after: " + Listing(ins))
  {
    hide DisassembleFrom, L.Name, L.FromCode, NatToString, OperandsText;
    WalkInstructions([], ins, [b] + s, "");
    StepUnknown(Encode(ins) + [b] + s, |Encode(ins)|, Listing(ins));
    assert [] + Encode(ins) + ([b] + s) == Encode(ins) + [b] + s;
    assert (Encode(ins) + [b] + s)[|Encode(ins)|] == b;
    assert "" + Listing(ins) == Listing(ins);
  }

  /** `n` operands past the end of the program. */
  function Undefineds(n: nat): (s: string)
    ensures |s| == 10 * n
  {
    if n == 0 then "" else Undefineds(n - 1) + " undefined"
  }

  /** Operand bytes that lie past the end each print as "undefined". */
  lemma {:induction false} OperandsPastEnd(program: seq<C.Byte>, k: nat, n: nat)
    requires k >= |program|
    ensures OperandsText(program, k, n) == Undefineds(n)
  {
    if n > 0 {
      OperandsPastEnd(program, k, n - 1);
    }
  }

  /** An opcode in the last byte of the program prints "undefined" for
      each of its missing operands, and the walk ends after it; for
      instance a lone Set byte prints "Set undefined undefined undefined". */
  lemma TruncatedInstruction(p: seq<C.Byte>, op: L.Opcode)
    ensures DisassembleFrom(p + [L.Code(op)], |p|, "") == Ok(L.Name(op) + Undefineds(L.Width(op) - 1) + "\n")
  {
    var program := p + [L.Code(op)];
    L.CodeRoundTrip(op);
    WidthPositive(op);
    assert program[|p|] == L.Code(op);
    Step(program, |p|, "", op);
    StepEnd(program, |p| + L.Width(op), "" + Line(program, |p|, op));
    OperandsPastEnd(program, |p| + 1, L.Width(op) - 1);
    assert "" + Line(program, |p|, op) == Line(program, |p|, op);
  }
}
