/** The disassembly debugger (debug.ts): a first walk collects the targets
    of every branch instruction into the `branchAddresses` set, and a
    second walk prints one line per instruction, prefixed with its
    address, with the lines that a branch jumps to highlighted. */
module Debugger {
  import opened Wrappers
  import opened Text
  import C = CoreOpcode
  import L = LegacyOpcode
  import D = Disassembler
  import N = Numbers

  /** A JavaScript number as far as the debugger produces them: an
      integer, or NaN when an operand byte is missing. */
  datatype JsNumber = Finite(value: int) | NaN

  /** `number.toString()`. */
  function NumberText(n: JsNumber): string {
    match n
    case Finite(v) => IntToString(v)
    case NaN => "NaN"
  }

  /** Membership in `branchOpcodes`: Call and the three jumps. */
  predicate IsBranch(op: L.Opcode) {
    op == L.Call || op == L.Jump || op == L.JumpIfZero || op == L.JumpIfNotZero
  }

  /** Every branch instruction is three bytes wide. */
  lemma BranchWidth(op: L.Opcode)
    ensures IsBranch(op) ==> L.Width(op) == 3
  {
  }

  /** `(program[k] << 8) + program[k + 1]`. A missing first byte shifts
      as 0, but a missing second byte makes the sum NaN. */
  function BranchTarget(program: seq<C.Byte>, k: nat): (n: JsNumber)
    ensures n.NaN? <==> k + 1 >= |program|
    ensures n.Finite? ==> 0 <= n.value < 65536
  {
    if k + 1 < |program| then Finite((program[k] as int) * 256 + program[k + 1]) else NaN
  }

  // ---------------------------------------------------------------------
  // The first walk

  /** What the first walk collects from `ip` on, and the message it throws
      at the first byte that is not an opcode. */
  datatype Scan = Scan(found: set<JsNumber>, error: Option<string>)

  function ScanFrom(program: seq<C.Byte>, ip: nat): Scan
    decreases |program| - ip
  {
    if ip >= |program| then Scan({}, None)
    else match L.FromCode(program[ip])
      case None => Scan({}, Some("unknown opcode:" + NatToString(program[ip])))
      case Some(op) =>
        D.WidthPositive(op);
        var rest := ScanFrom(program, ip + L.Width(op));
        if IsBranch(op) then rest.(found := {BranchTarget(program, ip + 1)} + rest.found) else rest
  }

  lemma ScanStep(program: seq<C.Byte>, ip: nat, op: L.Opcode)
    requires ip < |program| && L.FromCode(program[ip]) == Some(op)
    ensures var rest := ScanFrom(program, ip + L.Width(op));
      ScanFrom(program, ip) == if IsBranch(op) then rest.(found := {BranchTarget(program, ip + 1)} + rest.found) else rest
  {
  }

  lemma ScanUnknown(program: seq<C.Byte>, ip: nat)
    requires ip < |program| && L.FromCode(program[ip]).None?
    ensures ScanFrom(program, ip) == Scan({}, Some("unknown opcode:" + NatToString(program[ip])))
  {
  }

  lemma ScanEnd(program: seq<C.Byte>, ip: nat)
    requires ip >= |program|
    ensures ScanFrom(program, ip) == Scan({}, None)
  {
  }

  // ---------------------------------------------------------------------
  // The second walk

  const Reset: string := "\U{1b}[0m"

  /** `formatBranchAddress`: green. */
  function Green(s: string): string {
    "\U{1b}[32m" + s + Reset
  }

  /** `formatOpcode`: blue. */
  function Blue(s: string): string {
    "\U{1b}[34m" + s + Reset
  }

  /** The address column: "$", the address padded to four digits, and a
      space. */
  function Label(ip: nat): string {
    "$" + PadStart(NatToString(ip), 4, '0') + " "
  }

  /** A branch's target: " $" and the address padded to four digits, in
      green. */
  function TargetColumn(address: JsNumber): string {
    Green(" $" + PadStart(NumberText(address), 4, '0'))
  }

  /** The text after the opcode: a branch's target in green, or the raw
      operand bytes. */
  function OperandColumn(program: seq<C.Byte>, ip: nat, op: L.Opcode): string {
    if IsBranch(op) then TargetColumn(BranchTarget(program, ip + 1))
    else D.OperandsText(program, ip + 1, L.Width(op) - 1)
  }

  /** The line for the instruction `op` at `ip`, given the collected
      branch targets. */
  function DebugLine(program: seq<C.Byte>, marks: set<JsNumber>, ip: nat, op: L.Opcode): string {
    (if Finite(ip) in marks then Green(Label(ip)) else Label(ip)) + Blue(L.Name(op)) + OperandColumn(program, ip, op) + "\n"
  }

  /** What the second walk returns from `ip` on with `out` printed so far. */
  function ListFrom(program: seq<C.Byte>, marks: set<JsNumber>, ip: nat, out: string): Result<string, string>
    decreases |program| - ip
  {
    if ip >= |program| then Ok(out)
    else match L.FromCode(program[ip])
      case None => Err("unknown opcode:" + NatToString(program[ip]) + ", after: " + out)
      case Some(op) =>
        D.WidthPositive(op);
        ListFrom(program, marks, ip + (if IsBranch(op) then 3 else L.Width(op)), out + DebugLine(program, marks, ip, op))
  }

  lemma ListStep(program: seq<C.Byte>, marks: set<JsNumber>, ip: nat, out: string, op: L.Opcode)
    requires ip < |program| && L.FromCode(program[ip]) == Some(op)
    ensures ListFrom(program, marks, ip, out) == ListFrom(program, marks, ip + L.Width(op), out + DebugLine(program, marks, ip, op))
  {
    BranchWidth(op);
  }

  lemma ListUnknown(program: seq<C.Byte>, marks: set<JsNumber>, ip: nat, out: string)
    requires ip < |program| && L.FromCode(program[ip]).None?
    ensures ListFrom(program, marks, ip, out) == Err("unknown opcode:" + NatToString(program[ip]) + ", after: " + out)
  {
  }

  lemma ListEnd(program: seq<C.Byte>, marks: set<JsNumber>, ip: nat, out: string)
    requires ip >= |program|
    ensures ListFrom(program, marks, ip, out) == Ok(out)
  {
  }

  // ---------------------------------------------------------------------
  // The debugger

  class DisassemblyDebugger {
    /** Every branch target collected so far, over all runs. */
    var branchAddresses: set<JsNumber>

    constructor()
      ensures branchAddresses == {}
    {
      branchAddresses := {};
    }

    /** `getBranchAddresses`: adds the target of every branch instruction to
        the set, and on a byte that is not an opcode throws, keeping what
        it added before it. */
    method GetBranchAddresses(program: seq<C.Byte>) returns (error: Option<string>)
      modifies this
      ensures branchAddresses == old(branchAddresses) + ScanFrom(program, 0).found
      ensures error == ScanFrom(program, 0).error
    {
      hide ScanFrom, L.Name, L.FromCode, NatToString;
      var ip: nat := 0;
      while ip < |program|
        invariant branchAddresses + ScanFrom(program, ip).found == old(branchAddresses) + ScanFrom(program, 0).found
        invariant ScanFrom(program, ip).error == ScanFrom(program, 0).error
        decreases |program| - ip
      {
        var opcode := L.FromCode(program[ip]);
        if opcode.None? {
          ScanUnknown(program, ip);
          return Some("unknown opcode:" + NatToString(program[ip]));
        }
        ghost var start := ip;
        ScanStep(program, ip, opcode.value);
        D.WidthPositive(opcode.value);
        if IsBranch(opcode.value) {
          var address := BranchTarget(program, ip + 1);
          branchAddresses := branchAddresses + {address};
        }
        ip := ip + 1;
        var numOperands := L.Width(opcode.value) - 1;
        for i := 0 to numOperands
          invariant ip == start + 1 + i
          invariant branchAddresses + ScanFrom(program, start + L.Width(opcode.value)).found == old(branchAddresses) + ScanFrom(program, 0).found
        {
          ip := ip + 1;
        }
      }
      ScanEnd(program, ip);
      return None;
    }

    /** `run`: collects the branch targets, then prints the listing. An
        error of the first walk is thrown before anything is printed. */
    method Run(program: seq<C.Byte>) returns (r: Result<string, string>)
      modifies this
      ensures branchAddresses == old(branchAddresses) + ScanFrom(program, 0).found
      ensures ScanFrom(program, 0).error.Some? ==> r == Err(ScanFrom(program, 0).error.value)
      ensures ScanFrom(program, 0).error.None? ==> r == ListFrom(program, branchAddresses, 0, "")
    {
      var error := GetBranchAddresses(program);
      if error.Some? {
        return Err(error.value);
      }
      r := List(program);
    }

    /** The second walk of `run`, over the branch targets collected so far. */
    method List(program: seq<C.Byte>) returns (r: Result<string, string>)
      ensures r == ListFrom(program, branchAddresses, 0, "")
    {
      hide ListFrom, L.Name, L.FromCode, L.Width, IsBranch, NatToString, DebugLine, Green, Blue, Label, PadStart, NumberText, OperandColumn, TargetColumn, D.OperandsText, D.ByteText;
      var out := "";
      var ip: nat := 0;
      while ip < |program|
        invariant ListFrom(program, branchAddresses, ip, out) == ListFrom(program, branchAddresses, 0, "")
        decreases |program| - ip
      {
        var opcode := L.FromCode(program[ip]);
        if opcode.None? {
          ListUnknown(program, branchAddresses, ip, out);
          return Err("unknown opcode:" + NatToString(program[ip]) + ", after: " + out);
        }
        ListStep(program, branchAddresses, ip, out, opcode.value);
        D.WidthPositive(opcode.value);
        var line;
        line, ip := FormatInstruction(program, ip, opcode.value);
        assert out + line + "\n" == out + (line + "\n");
        out := out + line + "\n";
      }
      ListEnd(program, branchAddresses, ip, out);
      return Ok(out);
    }

    /** One line of `run`'s second walk: the instruction `op` at `ip`,
        formatted, and the address of the next instruction. */
    method FormatInstruction(program: seq<C.Byte>, ip: nat, op: L.Opcode) returns (line: string, next: nat)
      ensures line + "\n" == DebugLine(program, branchAddresses, ip, op)
      ensures next == ip + L.Width(op)
    {
      hide L.Name, NatToString, DebugLine, Green, Blue, Label, PadStart, NumberText, OperandColumn, TargetColumn, D.OperandsText, D.ByteText;
      D.WidthPositive(op);
      BranchWidth(op);
      ghost var start := ip;
      next := ip;
      line := "";
      if Finite(ip) in branchAddresses {
        line := line + Green(Label(ip));
      } else {
        line := line + Label(ip);
      }
      line := line + Blue(L.Name(op));
      next := next + 1;
      if IsBranch(op) {
        var address := BranchTarget(program, next);
        line := line + TargetColumn(address);
        next := next + 2;
      } else {
        var numOperands := L.Width(op) - 1;
        line, next := D.AppendOperands(program, line, next, numOperands);
      }
      Column(program, start, op);
      LineAssembled(program, branchAddresses, start, op, line);
    }
  }

  lemma Column(program: seq<C.Byte>, ip: nat, op: L.Opcode)
    ensures IsBranch(op) ==> OperandColumn(program, ip, op) == TargetColumn(BranchTarget(program, ip + 1))
    ensures !IsBranch(op) ==> OperandColumn(program, ip, op) == D.OperandsText(program, ip + 1, L.Width(op) - 1)
  {
  }

  /** The pieces the second walk appends make up `DebugLine`. */
  lemma LineAssembled(program: seq<C.Byte>, marks: set<JsNumber>, ip: nat, op: L.Opcode, line: string)
    requires line == "" + (if Finite(ip) in marks then Green(Label(ip)) else Label(ip)) + Blue(L.Name(op)) + OperandColumn(program, ip, op)
    ensures line + "\n" == DebugLine(program, marks, ip, op)
  {
    hide Green, Blue, Label, OperandColumn, L.Name;
  }

  // ---------------------------------------------------------------------
  // Properties of the two walks

  /** Both walks step over the same instruction boundaries and stop at the
      same byte: the second walk fails exactly when the first one does,
      with the same message followed by the text printed so far. So a
      `run` that got past `getBranchAddresses` never throws. */
  lemma {:induction false} WalksAgree(program: seq<C.Byte>, marks: set<JsNumber>, ip: nat, out: string)
    ensures ListFrom(program, marks, ip, out).Err? <==> ScanFrom(program, ip).error.Some?
    ensures ScanFrom(program, ip).error.Some? ==>
      exists printed :: ListFrom(program, marks, ip, out).error == ScanFrom(program, ip).error.value + ", after: " + printed
    decreases |program| - ip
  {
    hide ListFrom, ScanFrom, L.Name, L.FromCode, NatToString, DebugLine;
    if ip >= |program| {
      ScanEnd(program, ip);
      ListEnd(program, marks, ip, out);
    } else if L.FromCode(program[ip]).None? {
      ScanUnknown(program, ip);
      ListUnknown(program, marks, ip, out);
      assert ListFrom(program, marks, ip, out).error == ScanFrom(program, ip).error.value + ", after: " + out;
    } else {
      var op := L.FromCode(program[ip]).value;
      D.WidthPositive(op);
      ScanStep(program, ip, op);
      ListStep(program, marks, ip, out, op);
      WalksAgree(program, marks, ip + L.Width(op), out + DebugLine(program, marks, ip, op));
    }
  }

  /** The branch target an instruction's operands name. */
  function Target(i: D.Instruction): JsNumber {
    if |i.operands| >= 2 then Finite((i.operands[0] as int) * 256 + i.operands[1]) else NaN
  }

  /** The targets of the branch instructions among `ins`. */
  function Targets(ins: seq<D.Instruction>): set<JsNumber> {
    if ins == [] then {}
    else (if IsBranch(ins[0].op) then {Target(ins[0])} else {}) + Targets(ins[1..])
  }

  lemma TargetsFirst(ins: seq<D.Instruction>)
    requires ins != []
    ensures Targets(ins) == (if IsBranch(ins[0].op) then {Target(ins[0])} else {}) + Targets(ins[1..])
  {
  }

  /** The first walk over one whole instruction at `|p|`. */
  lemma ScanInstruction(p: seq<C.Byte>, i: D.Instruction, s: seq<C.Byte>)
    requires D.WellFormed(i)
    ensures var program := p + [L.Code(i.op)] + i.operands + s;
      var rest := ScanFrom(program, |p| + L.Width(i.op));
      ScanFrom(program, |p|) == rest.(found := (if IsBranch(i.op) then {Target(i)} else {}) + rest.found)
  {
    hide ScanFrom, L.Name, L.FromCode, NatToString;
    var program := p + [L.Code(i.op)] + i.operands + s;
    assert program[|p|] == L.Code(i.op);
    L.CodeRoundTrip(i.op);
    ScanStep(program, |p|, i.op);
    if IsBranch(i.op) {
      BranchWidth(i.op);
      assert program[|p| + 1] == i.operands[0] && program[|p| + 2] == i.operands[1];
      assert BranchTarget(program, |p| + 1) == Target(i);
    }
    var rest := ScanFrom(program, |p| + L.Width(i.op));
    assert {} + rest.found == rest.found;
  }

  /** Targets collected over two stretches of the walk add up. */
  lemma ScanCompose(whole: Scan, mid: Scan, rest: Scan, first: set<JsNumber>, later: set<JsNumber>)
    requires whole == mid.(found := first + mid.found) && mid == rest.(found := later + rest.found)
    ensures whole == rest.(found := first + later + rest.found)
  {
    assert first + (later + rest.found) == first + later + rest.found;
  }

  /** What the first walk collects over `ins` from `|p|` on, and where it
      carries on. */
  ghost predicate ScansOver(p: seq<C.Byte>, ins: seq<D.Instruction>, s: seq<C.Byte>) {
    var program := p + D.Encode(ins) + s;
    var rest := ScanFrom(program, |p| + |D.Encode(ins)|);
    ScanFrom(program, |p|) == rest.(found := Targets(ins) + rest.found)
  }

  /** One instruction in front of a stretch the walk is known to cover. */
  lemma ScanFirstInstruction(p: seq<C.Byte>, ins: seq<D.Instruction>, s: seq<C.Byte>)
    requires D.AllWellFormed(ins) && ins != []
    requires ScansOver(p + [L.Code(ins[0].op)] + ins[0].operands, ins[1..], s)
    ensures ScansOver(p, ins, s)
  {
    hide ScanFrom, L.Name, L.FromCode, NatToString, Targets;
    var program := p + D.Encode(ins) + s;
    var i, tail := ins[0], ins[1..];
    TargetsFirst(ins);
    D.SplitFirst(p, ins, s);
    hide D.Encode, D.AllWellFormed;
    var p' := p + [L.Code(i.op)] + i.operands;
    var first := if IsBranch(i.op) then {Target(i)} else {};
    ScanInstruction(p, i, D.Encode(tail) + s);
    assert |p| + L.Width(i.op) == |p'|;
    ScanCompose(ScanFrom(program, |p|), ScanFrom(program, |p'|), ScanFrom(program, |p| + |D.Encode(ins)|), first, Targets(tail));
  }

  /** The first walk over whole instructions from `|p|` on collects the
      targets of their branch instructions and carries on after them. */
  lemma {:induction false} ScanInstructions(p: seq<C.Byte>, ins: seq<D.Instruction>, s: seq<C.Byte>)
    requires D.AllWellFormed(ins)
    ensures var program := p + D.Encode(ins) + s;
      var rest := ScanFrom(program, |p| + |D.Encode(ins)|);
      ScanFrom(program, |p|) == rest.(found := Targets(ins) + rest.found)
    decreases |ins|
  {
    hide ScanFrom, L.Name, L.FromCode, NatToString;
    if ins == [] {
      var program := p + D.Encode(ins) + s;
      var rest := ScanFrom(program, |p|);
      assert rest.(found := {} + rest.found) == rest;
    } else {
      D.SplitFirst(p, ins, s);
      ScanInstructions(p + [L.Code(ins[0].op)] + ins[0].operands, ins[1..], s);
      ScanFirstInstruction(p, ins, s);
    }
  }

  /** `getBranchAddresses` on a program of whole instructions collects
      exactly the targets of its branch instructions, and does not throw. */
  lemma BranchTargetsOfEncoded(ins: seq<D.Instruction>)
    requires D.AllWellFormed(ins)
    ensures ScanFrom(D.Encode(ins), 0) == Scan(Targets(ins), None)
  {
    hide ScanFrom, L.Name, L.FromCode, NatToString;
    ScanInstructions([], ins, []);
    assert [] + D.Encode(ins) + [] == D.Encode(ins);
    ScanEnd(D.Encode(ins), |D.Encode(ins)|);
    assert Targets(ins) + {} == Targets(ins);
  }

  /** A byte that is not an opcode where an instruction should start makes
      both walks throw, naming the byte. */
  lemma UnknownOpcodeInBothWalks(ins: seq<D.Instruction>, b: C.Byte, s: seq<C.Byte>, marks: set<JsNumber>)
    requires D.AllWellFormed(ins) && b >= 20
    ensures ScanFrom(D.Encode(ins) + [b] + s, 0).error == Some("unknown opcode:" + NatToString(b))
    ensures ListFrom(D.Encode(ins) + [b] + s, marks, 0, "").Err?
  {
    hide ScanFrom, ListFrom, L.Name, L.FromCode, NatToString;
    var program := D.Encode(ins) + [b] + s;
    ScanInstructions([], ins, [b] + s);
    assert [] + D.Encode(ins) + ([b] + s) == program;
    assert program[|D.Encode(ins)|] == b;
    ScanUnknown(program, |D.Encode(ins)|);
    WalksAgree(program, marks, 0, "");
  }

  /** A branch whose second operand byte is missing has the target NaN,
      and the first walk collects it. */
  lemma TruncatedBranch(p: seq<C.Byte>, op: L.Opcode, operands: seq<C.Byte>)
    requires IsBranch(op) && |operands| < 2
    ensures BranchTarget(p + [L.Code(op)] + operands, |p| + 1) == NaN
    ensures ScanFrom(p + [L.Code(op)] + operands, |p|) == Scan({NaN}, None)
  {
    L.CodeRoundTrip(op);
    BranchWidth(op);
    hide ScanFrom, L.Name, L.FromCode, L.Code, L.Width, IsBranch, NatToString;
    var program := p + [L.Code(op)] + operands;
    assert program[|p|] == L.Code(op);
    ScanStep(program, |p|, op);
    ScanEnd(program, |p| + 3);
    assert {NaN} + {} == {NaN};
  }

  /** The listing prints a NaN target as "$0NaN". */
  lemma NaNColumn()
    ensures TargetColumn(NaN) == Green(" $0NaN")
  {
    assert Repeat('0', 1) == "0";
    assert PadStart(NumberText(NaN), 4, '0') == "0NaN";
    assert " $" + "0NaN" == " $0NaN";
  }

  /** The address column starts with "$" and ends with a space; between
      them stands the address in decimal, read back as the address; below
      10000 it is padded to four digits. */
  lemma LabelShowsAddress(ip: nat)
    ensures var column := Label(ip);
      |column| >= 6 && column[0] == '$' && column[|column| - 1] == ' ' &&
      N.ParseDigits(column[1..|column| - 1], 10) == Some(ip) &&
      (ip < 10000 <==> |column| == 6)
  {
    var padded := PadStart(NatToString(ip), 4, '0');
    PaddedDigits(ip);
    hide PadStart, NatToString, N.ParseDigits;
    var column := Label(ip);
    assert column == "$" + padded + " ";
    assert column[1..|column| - 1] == padded;
  }

  /** The padded address reads back as the address, and is four digits
      long exactly below 10000. */
  lemma PaddedDigits(ip: nat)
    ensures var padded := PadStart(NatToString(ip), 4, '0');
      N.ParseDigits(padded, 10) == Some(ip) && |padded| >= 4 && (ip < 10000 <==> |padded| == 4)
  {
    var digits := NatToString(ip);
    var padded := PadStart(digits, 4, '0');
    N.DecimalRoundTrip(ip);
    if |digits| < 4 {
      assert padded == Repeat('0', 4 - |digits|) + digits;
      N.LeadingZeros(4 - |digits|, digits, 10);
    }
    DigitsOfSmall(ip);
  }

  function Pow10(k: nat): (p: nat)
    ensures p >= 1
  {
    if k == 0 then 1 else 10 * Pow10(k - 1)
  }

  /** A number has at most `k` decimal digits exactly when it is below
      10 to the `k`. */
  lemma {:induction false} DigitCount(n: nat, k: nat)
    requires k >= 1
    ensures |NatToString(n)| <= k <==> n < Pow10(k)
    decreases n
  {
    if n >= 10 {
      if k == 1 {
        assert |NatToString(n)| == |NatToString(n / 10)| + 1;
      } else {
        DigitCount(n / 10, k - 1);
      }
    } else {
      if k > 1 {
        assert Pow10(k) == 10 * Pow10(k - 1);
      }
    }
  }

  /** Numbers below 10000 have at most four decimal digits, and others more. */
  lemma DigitsOfSmall(n: nat)
    ensures n < 10000 <==> |NatToString(n)| <= 4
  {
    DigitCount(n, 4);
    assert Pow10(4) == 10000;
  }
}
