# bbvm in Dafny

A model of bbvm, a small 8-bit-flavoured virtual machine and its tool chain, with proofs about it.
The model covers these parts:

- **The instruction set.** `core/opcode.ts` holds the opcode and register enumerations, the mnemonic table, the instruction widths and the byte encoders. The older `opcode.ts` holds the numbering that the virtual machine, the disassembler and the debugger read.
- **The token-based assembler.** Its IR generator (`assembler/ir.ts`) turns lexer tokens into IR nodes. Its code generator (`assembler/generator.ts`) resolves labels and consts and emits bytes. Its driver (`assembler/assembler.ts`) reads files, resolves `import`s and flattens them. Its error taxonomy is `assembler/error.ts`.
- **The older line-based assembler** (`assembler.ts`) and the `$define` preprocessor (`preprocessor.ts`).
- **The virtual machine** (`vm.ts`).
- **Two listing tools:** the disassembler (`dissasembler.ts`) and the debugger's annotated listing (`debug.ts`).

## How it is modelled

**Code built from expressions** is modelled as datatypes and functions. This covers the tables, the encoders, `getErrorMessage` and the generator's `generate*` functions.

**Code that updates objects step by step** is modelled as classes:

- `IR.IRGenerator` with fields `index` and `tokens`.
- `Generator.CodeGenerator` with `labels`, `consts` and `program`.
- `Driver.Assembler` with the import memo, the combined IR and the read log.
- `Vm.VM` with its registers and a 65536-byte `memory` array.
- `LegacyAssembler.Assembler` and `Debugger.DisassemblyDebugger`.

Every such method is proved to agree with a specification function on values:

- `ProgramFrom` for the IR generator.
- `TablesAfter` and `Emit` for the code generator.
- `FlattenFile` and `FlattenNodes` for `combineIRTokens`.
- `Step` and `RunFrom` for the machine.
- `ScanLabels` and `AssembleLines` for the two passes of the older assembler.
- `Preprocessed`, `DisassembleFrom`, `ScanFrom` and `ListFrom` for the tools.

The properties are then proved about those functions.

Where the code and its design notes disagree, the model follows the code. The exception is the older assembler (`LegacyAssembler`): its encoders and its class are built on the corrected definitions of the three defects listed under "## Findings", and the code as written is modelled beside them. The resulting differences are listed under "## Left out". Otherwise:

- **Registers are unbounded numbers.** No 8-bit or 16-bit wrap-around happens in the registers. Only memory cells and ROM bytes are bytes.
- **`Call` pushes four bytes.** These are the return address and the frame pointer. It does not save X and Y.
- **The return address is the address past the call's operand, plus one.** `Return` discards one extra pop. `Vm.CallThenReturn` states where a call followed by a return resumes.
- **The import memo is written before a file's imports are resolved.** This is why `resolveImports` terminates on cyclic imports.
- **`combineIRTokens` keeps no memo.** A file imported twice contributes its nodes twice (`Driver.DuplicateImportsKept`).
- **Writing register XY writes only Y.**
- **The `syscall` entry of the instruction table records opcode `Pop`.** Its width is the width of `Pop`.

JavaScript values that are `undefined` or NaN are modelled explicitly:

- An `undefined` byte shifts as 0 and is stored into a `Uint8Array` as 0.
- A read outside memory, or a register that would receive NaN, stops the machine with a `Vm.Fault`.
- The debugger's NaN branch target is the value `Debugger.JsNumber.NaN`.
- `v & 0xff` and `(v & 0xff00) >> 8` are modelled as `v % 256` and `(v / 256) % 256`, which agree for every integer.
- The 32-bit operators `<<`, `>>`, `&`, `|` and `~` are modelled in `Int32`.

## Model

| member | source | states |
|---|---|---|
| CoreOpcode.ToByte | core/opcode.ts:341-365 | a value stored into a `Uint8Array` is congruent to it modulo 256 and equal to it when it is already a byte |
| CoreOpcode.BigEndianRoundTrip | core/opcode.ts:355-356 | the high and low bytes of an address rebuild the address modulo 65536, exactly for 16-bit addresses |
| CoreOpcode.RegisterFromCode | core/opcode.ts:7-15 | a byte names a register exactly when it is below 7, and then the register's number is that byte |
| CoreOpcode.RegisterCodeRoundTrip | core/opcode.ts:7-15 | decoding a register's number gives the register back |
| CoreOpcode.RegisterNamesOneToOne | core/opcode.ts:17-35 | looking up a register's name gives that register, and no other name does |
| CoreOpcode.OpcodeFromCode | core/opcode.ts:37-67 | a byte is an opcode exactly when it is below 23, and then the opcode's number is that byte |
| CoreOpcode.OpcodeCodeRoundTrip | core/opcode.ts:37-67 | decoding an opcode's number gives the opcode back |
| CoreOpcode.MnemonicsOneToOne | core/opcode.ts:69-93 | the mnemonic table maps each opcode's mnemonic to it, and no other string to it |
| CoreOpcode.MnemonicFound | core/opcode.ts:69-93 | every opcode has a mnemonic in the table |
| CoreOpcode.LookupIsMnemonic | core/opcode.ts:69-93 | every name the table accepts is the mnemonic of the opcode it gives |
| CoreOpcode.WidthsByFamily | core/opcode.ts:95-119 | widths are 1 for halt and return, 2 for pop and syscall, 3 for branches and push, 4 for set and arithmetic-logic, and 7 for peek and poke |
| CoreOpcode.InstructionTableAgrees | core/opcode.ts:143-303 | the instruction table has an entry exactly for each mnemonic, with that opcode and width, except that `syscall` records `Pop` and the width of `Pop` |
| CoreOpcode.EncodeOffset | core/opcode.ts:339 | an offset encodes to three bytes |
| CoreOpcode.EmptyOffsetEncoding | core/opcode.ts:313-317 | the empty offset is a literal, plus-signed 0 and encodes as three zero bytes |
| CoreOpcode.EncodeMemoryAccess | core/opcode.ts:341-365 | a peek or poke encodes to seven bytes: the opcode, then the register and a zero pad or the big-endian address, then the encoded offset |
| CoreOpcode.EncodeBranching | core/opcode.ts:373-380 | a branch encodes to three bytes: the opcode and the big-endian target modulo 65536 |
| CoreOpcode.EncodeOperand | core/opcode.ts:392-393 | an operand encodes to two bytes |
| CoreOpcode.EncodeSet | core/opcode.ts:400-408 | a set encodes to four bytes: the opcode, the destination register and the encoded source operand |
| CoreOpcode.MemoryAccessRoundTrip | core/opcode.ts:341-365 | decoding an encoded peek or poke gives its opcode, address and offset back, with values reduced to what the bytes hold |
| CoreOpcode.BranchingRoundTrip | core/opcode.ts:373-380 | decoding an encoded branch gives its opcode and its target modulo 65536 |
| CoreOpcode.SetRoundTrip | core/opcode.ts:392-408 | decoding an encoded set gives its destination and source back, with the literal reduced to a byte |
| LegacyOpcode.FromCode | opcode.ts:37-63 | a byte is an opcode of the older numbering exactly when it is below 20, and then the opcode's number is that byte |
| LegacyOpcode.CodeRoundTrip | opcode.ts:37-63 | decoding an older opcode's number gives it back |
| LegacyOpcode.NamesDistinct | opcode.ts:37-63 | the enumeration's member names are pairwise distinct |
| LegacyOpcode.MnemonicsOneToOne | opcode.ts:65-86 | the older mnemonic table maps each opcode's mnemonic to it, and no other string to it |
| LegacyOpcode.ToCore | opcode.ts:65-86 | each older opcode corresponds to the newer opcode with the same mnemonic |
| LegacyOpcode.WidthsAgreeExceptPop | opcode.ts:88-109 | the older widths equal the newer ones for every opcode but `Pop`, which is 1 in the older table and 2 in the newer |
| LegacyOpcode.NumberingsDiverge | opcode.ts:37-63 | the two numberings agree below 10 and differ from `And` on, where byte 10 is `EqualTo` in one and `And` in the other |
| Errors.TagsCharacterizeParseErrors | assembler/error.ts:4-38 | each constructor builds an error that `isParseError` accepts; an object is accepted exactly when its tag is one of the three; the check throws on a nullish value; the tags tell the three kinds apart |
| Errors.MessageShape | assembler/error.ts:40-59 | each message starts with its kind's prefix and the quoted text, and ends with `filename:line:col` |
| Errors.MessagesTellKinds | assembler/error.ts:40-59 | errors of different kinds never print the same message |
| Errors.SyntaxMessageFirstLineOnly | assembler/error.ts:41-45 | a syntax error quotes only the first line of the token's value |
| Text.Trim | assembler.ts:115 | a trimmed string neither starts nor ends with white space |
| Text.TrimIsInfix | assembler.ts:115 | trimming removes only white space, from both ends |
| Text.IndexOf | assembler.ts:152 | the index found is the first occurrence, and there is none when the character is absent |
| Text.Split | preprocessor.ts:7 | splitting gives at least one part, and no part holds the separator |
| Text.JoinSplit | preprocessor.ts:7 | joining the parts with the separator gives back the string |
| Text.SplitSpacesHaveNoSpace | assembler.ts:305 | splitting at runs of white space leaves no white space in any word |
| Text.FirstLine | assembler/error.ts:43 | the first line is a prefix without a newline, ending at the first newline or the end |
| Text.PadStart | debug.ts:57 | padding gives the longer of the two lengths, ends with the string and is filled with the pad character |
| Text.ReplaceAllAbsent | preprocessor.ts:21-24 | replacing a pattern that does not occur changes nothing |
| Numbers.ParseDigitsAccepts | assembler/ir.ts:12-24 | a digit string parses exactly when it is non-empty and every character is a digit of the base |
| Numbers.DigitsRoundTrip | assembler/ir.ts:12-24 | parsing the digits of a number in any base from 2 to 16 gives the number |
| Numbers.DecimalRoundTrip | assembler/assembler.ts:14-26 | parsing a number's decimal text gives the number |
| Numbers.LeadingZeros | assembler/ir.ts:12-24 | leading zeros do not change the value parsed |
| Numbers.ParsedIsNumber | assembler/assembler.ts:6-26 | whatever parses as a number passes the leading-digit test |
| Numbers.ParseNumberRoundTrip | assembler.ts:29-41 | decimal, `0x` hexadecimal and `0b` binary texts of a number all parse back to it |
| Numbers.ParseNumberExamples | assembler/assembler.ts:14-26 | "0" and "123" parse to themselves; text without a leading digit is not a number |
| Numbers.HexNumberExamples | assembler/ir.ts:18-21 | "0x123" is 291 and "0xab" is 171 |
| Numbers.BinaryNumberExamples | assembler/ir.ts:13-16 | "0b101" is 5 and "0b1" is 1 |
| Numbers.IsRegisterExactly | assembler/assembler.ts:28-30 | a string is a register exactly when it is one of the seven register names |
| Numbers.IsRegisterAsWrittenAcceptsConstructor | assembler.ts:43-45 | the `in` test as written accepts "constructor", which names no register |
| Int32.ToInt32 | vm.ts:233-251 | the 32-bit conversion lands in the signed 32-bit range and is congruent modulo 2^32 |
| Int32.ToInt32Canonical | vm.ts:233-251 | the conversion leaves 32-bit values alone and ignores multiples of 2^32 |
| Int32.Not | vm.ts:249-252 | `~v` is `-ToInt32(v) - 1` |
| Int32.ShiftLeftByEight | vm.ts:64-65 | shifting a value below 2^23 left by 8 multiplies it by 256 |
| Int32.NotAndShiftCount | vm.ts:233-251 | `~~v` is the 32-bit conversion of `v`, and shift counts are taken modulo 32 |
| Int32.ShiftRightExamples | vm.ts:237-240 | `>>` keeps the sign: -1 >> 1 is -1 and -8 >> 2 is -2; 1 << 31 is -2^31 |
| IR.ExpectAt | assembler/ir.ts:105-113 | expect succeeds exactly when the next token has the kind, returning it and moving past it, and otherwise throws a syntax error on the token, or on `eof` past the end |
| IR.SkipWs | assembler/ir.ts:145-149 | skipping white space moves past one white-space token, and only one |
| IR.OffsetAt | assembler/ir.ts:151-190 | a parsed offset consumes tokens and stays inside the list; a failure is a syntax error |
| IR.OffsetGrammar | assembler/ir.ts:151-190 | an offset parses exactly when it is `[`, an optional sign, an integer or register, and `]`; its sign is minus exactly when a minus was read, and its kind is register exactly when a register was read |
| IR.OffsetSteps | assembler/ir.ts:151-190 | the offset and the syntax error for each token that may follow the bracket and the sign |
| IR.NegativeRegisterOffsetExample | assembler/ir_test.ts:287-293 | `[-x]` parses to a minus-signed register offset naming X |
| IR.OperandAt | assembler/ir.ts:192-260 | an operand keeps its token, and its value is what the token denotes |
| IR.OperandOffsetOnlyAfterBracket | assembler/ir.ts:192-260 | an operand has an offset exactly when a `[` follows it; any token that is not an integer, register, label or const is a syntax error |
| IR.OperandsFrom | assembler/ir.ts:279-283 | the operand loop stops at a newline or `eof`, and every operand it collects denotes its token's value |
| IR.InstructionAt | assembler/ir.ts:262-286 | a parsed instruction ends at a newline or `eof` and is well formed |
| IR.UnknownInstructionRejected | assembler/ir.ts:262-267 | an instruction without a definition is a syntax error on its token |
| IR.InstructionSkipsOneWhitespace | assembler/ir.ts:269 | a second white-space token after the mnemonic is a syntax error |
| IR.ConstDefinitionAt | assembler/ir.ts:299-326 | a const definition's value is never a const and denotes its token's value |
| IR.ConstOfConstRejected | assembler/ir.ts:310-315 | defining a const as another const is a type error on the value's token |
| IR.ImportAt | assembler/ir.ts:327-341 | an import gives one import node carrying the `import` keyword |
| IR.TopLevelTokens | assembler/ir.ts:354-364 | comments, newlines and white space are skipped; any other token that starts no node is a syntax error |
| IR.LabelDefinitionNodeOnly | assembler/ir.ts:342-353 | a label definition gives one label node and the rest of the program |
| IR.ProgramWellFormed | assembler/ir.ts:288-368 | every node of a parsed program is well formed |
| IR.PushExample | assembler/ir_test.ts:22-35 | `push 123` parses to one push instruction with the integer operand 123 |
| IR.IRGenerator.Expect | assembler/ir.ts:105-113 | the method returns and advances exactly as `ExpectAt` says |
| IR.IRGenerator.SkipWhiteSpace | assembler/ir.ts:145-149 | the new index is `SkipWs` of the old |
| IR.IRGenerator.ParseOffset | assembler/ir.ts:151-190 | the method returns and advances exactly as `OffsetAt` says |
| IR.IRGenerator.ParseOperand | assembler/ir.ts:192-260 | the method returns and advances exactly as `OperandAt` says |
| IR.IRGenerator.ParseInstruction | assembler/ir.ts:262-286 | the method returns and advances exactly as `InstructionAt` says |
| IR.IRGenerator.ParseConstDefinition | assembler/ir.ts:299-326 | the method returns and advances exactly as `ConstDefinitionAt` says |
| IR.IRGenerator.ParseNext | assembler/ir.ts:295-364 | one turn of the loop advances the index and contributes its nodes to `ProgramFrom`, or throws `ProgramFrom`'s error |
| IR.IRGenerator.Run | assembler/ir.ts:288-368 | `run(tokens)` returns `ProgramFrom(tokens, index)`, from the index left by the previous run |
| Generator.ConvertOffset | assembler/generator.ts:28-36 | a missing offset becomes the empty offset; otherwise its value, kind and sign carry over |
| Generator.ParsedIsTyped | assembler/ir.ts:310-315 | no const definition in a parsed program has a const as its value |
| Generator.TablesAfter | assembler/generator.ts:42-64 | registering definitions keeps every const table free of const references |
| Generator.LabelBinding | assembler/generator.ts:42-64 | after registration, a label is bound to the summed widths of the instructions before its last definition |
| Generator.ConstBinding | assembler/generator.ts:42-64 | after registration, a const is bound to the value of its last definition |
| Generator.ResolveLabelAddress | assembler/generator.ts:133-137 | a label resolves exactly when it is registered, to its address; otherwise this is an `undefined label` error |
| Generator.ResolveConst | assembler/generator.ts:139-144 | a const resolves exactly when it is defined, to its value and token with the use's offset kept, and otherwise is a reference error on the use |
| Generator.Substitute | assembler/generator.ts:139-169 | a non-const operand is unchanged, and a resolved const is never a const |
| Generator.ResolveAddress | assembler/generator.ts:152-169 | an address is the integer, the label's address, or a type error for a register; a bound const resolves through its value the same way, with the type error on the value's token, and an unbound const is a reference error on the use |
| Generator.RightOperandBytes | assembler/generator.ts:66-100 | two bytes: the Register type and a number that decodes back to the register, or the Literal type and the integer modulo 256 |
| Generator.GenerateArithmeticLogic | assembler/generator.ts:66-100 | succeeds exactly when the left operand is a register and the right one, after const substitution, resolves to something other than a label; the bytes are the opcode, the left register's number and the right operand's type and value bytes |
| Generator.GenerateSet | assembler/generator.ts:102-131 | set succeeds exactly when the destination is a register and the source an integer or a register, and the bytes then decode to the destination register and the literal (reduced to a byte) or the source register |
| Generator.GenerateMemoryAccess | assembler/generator.ts:171-193 | seven bytes that encode a register address, which always succeeds, or the resolved address, with the converted offset; resolution errors pass through |
| Generator.GenerateBranching | assembler/generator.ts:195-215 | succeeds exactly when the target resolves, and the bytes then decode to the branch and the target modulo 65536; a register target is a type error |
| Generator.GeneratePush | assembler/generator.ts:217-231 | succeeds exactly when the operand resolves to something other than a label; the bytes are the push opcode and the operand's type and value bytes (the register's number, or the literal modulo 256); a label is an `invalid operand` error |
| Generator.GeneratePop | assembler/generator.ts:233-242 | `[Pop, A]` with no operand and `[Pop, the register]` with a register operand; it succeeds exactly when the operand is missing or a register |
| Generator.GenerateSyscall | assembler/generator.ts:244-259 | succeeds exactly when the operand resolves to an integer, giving `[SysCall, the integer modulo 256]`; otherwise a type error on the resolved token |
| Generator.GenerateInstruction | assembler/generator.ts:261-300 | every generated instruction has its opcode's width and starts with its opcode |
| Generator.EmitNode | assembler/generator.ts:308-329 | an error stops emission, and each instruction adds its width |
| Generator.Emit | assembler/generator.ts:308-329 | the bytes emitted for a program are its summed instruction widths |
| Generator.EmitConcat | assembler/generator.ts:308-329 | emitting two programs in a row concatenates their bytes |
| Generator.EmitFailureSticks | assembler/generator.ts:308-329 | after an error nothing more is emitted |
| Generator.LabelAddressesAreOffsets | assembler/generator.ts:42-64 | the address bound to a label is the offset in the output where the code after its definition starts |
| Generator.Assemble | assembler/generator.ts:308-329 | the output's length is the summed widths of the program, and it succeeds exactly when emission has no error |
| Generator.CodeGenerator.RegisterLabelsAndConsts | assembler/generator.ts:42-64 | the new tables are `TablesAfter` of the old, and the program is unchanged |
| Generator.CodeGenerator.PushInstruction | assembler/generator.ts:304-306 | the bytes are appended to the program |
| Generator.CodeGenerator.Run | assembler/generator.ts:308-329 | the tables are registered, the emitted bytes are appended, and the program or the first error is returned |
| Driver.FlattenFileOrigin | assembler/assembler.ts:72-82 | a flattened file holds no import node, and each node comes from some imported file |
| Driver.FlattenWithoutImports | assembler/assembler.ts:72-82 | a file without imports flattens to itself |
| Driver.FlattenConcat | assembler/assembler.ts:72-82 | flattening two node lists in a row concatenates their flattenings |
| Driver.FlattenFailureSticks | assembler/assembler.ts:72-82 | once an import fails, the rest of the list adds nothing |
| Driver.DuplicateImportsKept | assembler/assembler.ts:72-82 | a file imported twice contributes its nodes twice |
| Driver.MemoExtend | assembler/assembler.ts:49-68 | recording a freshly parsed file keeps the memo faithful to the sources |
| Driver.MemoParse | assembler/assembler.ts:49-68 | every memo entry is the IR of that file's tokens |
| Driver.Assembler.constructor | assembler/assembler.ts:41-43 | a new assembler has an empty memo, an empty IR and the given sources |
| Driver.Assembler.ResolveImports | assembler/assembler.ts:49-68 | a memoized file is not re-read; a missing file or a parse error is reported; on success the file and everything it imports are in the memo |
| Driver.Assembler.ResolveEach | assembler/assembler.ts:62-67 | on success every import of the file is in the memo, and entries already there are unchanged |
| Driver.Assembler.CombineIRTokens | assembler/assembler.ts:72-82 | the combined IR grows by `FlattenFile` of the file and fails as it does |
| Driver.Assembler.CombineNodes | assembler/assembler.ts:72-82 | the combined IR grows by `FlattenNodes` of the list and fails as it does |
| Driver.Assembler.Run | assembler/assembler.ts:84-95 | imports are resolved first; the entry file is then flattened into the IR and handed to the code generator; errors are returned |
| Vm.Initial | vm.ts:13-23 | a new machine has 65536 zero bytes of memory, ip 0, and sp and fp at the top of memory |
| Vm.ReadRegister | vm.ts:56-73 | a register read has a value exactly when the byte names a register |
| Vm.RegisterReadAfterWrite | vm.ts:56-99 | a written register reads back its value, except XY, whose write goes to Y only and whose read is `(x << 8) + y` |
| Vm.FrameRegisters | vm.ts:56-99 | IP, SP and FP read and write the machine's ip, sp and fp |
| Vm.FetchThree | vm.ts:46-48 | three fetches advance ip by 3 and return the three ROM bytes when all are inside the ROM |
| Vm.SetInstruction | vm.ts:124-144 | set changes no memory and no ROM |
| Vm.SetEffect | vm.ts:124-144 | set writes the literal or the source register's value to the destination register |
| Vm.EffectiveAddress | vm.ts:146-170 | the operands are read exactly when six ROM bytes remain, and ip moves past them; an unknown address or offset register leaves the address undefined |
| Vm.EffectiveAddressForms | vm.ts:146-170 | the effective address of every operand form: a big-endian literal or a register as base (read with ip past the address operand), a literal or a register as offset (read with ip past all six bytes), added when the sign is 0 and subtracted otherwise; for instance `x[y]` is X + Y and `256[-a]` is 256 - A |
| Vm.EffectiveAddressIgnoresMemory | vm.ts:146-170 | the effective address depends on the ROM and the registers, never on memory |
| Vm.LiteralAddress | vm.ts:146-170 | a literal address with a literal offset is the big-endian address plus or minus the offset |
| Vm.PeekInstruction | vm.ts:145-180 | peek succeeds exactly when the effective address is defined and inside memory, and then sets A to that memory byte and moves ip past the operands; otherwise it is a truncated-instruction or undefined-value fault |
| Vm.PokeInstruction | vm.ts:181-216 | poke succeeds exactly when its six operand bytes are in the ROM; it writes A modulo 256 at a defined effective address inside memory, drops any other write, and changes nothing else but ip |
| Vm.PokeThenPeek | vm.ts:145-216 | for every operand form whose address lies in memory, poke stores A modulo 256 there, and a peek with the same operands reads it back into A |
| Vm.Operation | vm.ts:217-252 | the shift, and, or and not operators give 32-bit results; an undefined operand faults addition, subtraction, multiplication and division; a division that succeeds is exact |
| Vm.ArithmeticLogic | vm.ts:101-115 | an arithmetic-logic instruction changes only A, and ip by 3; A receives the operation on the left register and the right operand, a register when its type byte is 1 and the literal byte otherwise |
| Vm.ArithmeticLogicEffect | vm.ts:101-115 | the result or the fault for every form of the right operand; `+ a x` adds X to A, `- x y` gives X - Y, and an unknown right register faults addition, subtraction, multiplication and division |
| Vm.JumpEffect | vm.ts:253-276 | jump goes to the big-endian target; the conditional jumps go there exactly when A is, or is not, zero, and otherwise continue after the operand |
| Vm.CallEffect | vm.ts:277-298 | call pushes the return address and the old fp as four bytes, sets fp to the old sp and jumps |
| Vm.ReturnEffect | vm.ts:299-318 | return skips one byte, restores fp and ip big-endian from the next four, and raises sp by 5 |
| Vm.CallThenReturn | vm.ts:277-318 | a call straight to a return resumes at the call's address plus 4, with fp restored and sp one above its value before the call |
| Vm.PopAfterPush | vm.ts:33-44 | pop straight after push reads the byte below the pushed one, because push decrements after writing and pop increments after reading |
| Vm.PopAfterPushExample | vm.ts:33-44 | on a new machine, popping right after pushing 7 reads 0, while 7 sits at the top of memory |
| Vm.Executed | vm.ts:117-336 | no instruction changes the ROM or the size of memory |
| Vm.Step | vm.ts:341-343 | a step keeps the ROM and the size of memory |
| Vm.HaltAndUnknownOpcodes | vm.ts:121-123 | halt moves ip to the end of the ROM, which ends the run; a byte that is no opcode faults |
| Vm.RunFrom | vm.ts:338-344 | a run ends halted only with ip past the ROM, and runs out of fuel only with ip inside it |
| Vm.RunFromSplits | vm.ts:338-344 | running for f1 and then f2 steps is running for f1 + f2 steps |
| Vm.VM.constructor | vm.ts:15-23 | a new VM is in the `Initial` state |
| Vm.VM.Fetch | vm.ts:46-48 | fetch returns and advances exactly as `FetchFrom` says |
| Vm.VM.Fetch16 | vm.ts:50-54 | fetch16 returns and advances exactly as `Fetch16From` says |
| Vm.VM.Push | vm.ts:33-37 | the new state is `PushOnto` of the old |
| Vm.VM.Pop | vm.ts:39-44 | pop returns and moves sp exactly as `PopFrom` says |
| Vm.VM.GetRegister | vm.ts:56-73 | the register's value is `ReadRegister` of the state |
| Vm.VM.SetRegister | vm.ts:75-99 | the new state is `WriteRegister` of the old |
| Vm.VM.ExecuteArithmeticLogic | vm.ts:101-115 | the new state, or the fault, is `ArithmeticLogic` of the old |
| Vm.VM.ExecuteSet | vm.ts:124-144 | the new state, or the fault, is `SetInstruction` of the old |
| Vm.VM.ExecutePeek | vm.ts:145-180 | the new state, or the fault, is `PeekInstruction` of the old |
| Vm.VM.ExecutePoke | vm.ts:181-216 | the new state, or the fault, is `PokeInstruction` of the old, with the memory array updated in place |
| Vm.VM.ExecuteCall | vm.ts:277-298 | the new state, or the fault, is `CallInstruction` of the old |
| Vm.VM.ExecuteReturn | vm.ts:299-318 | the new state, or the fault, is `ReturnInstruction` of the old |
| Vm.VM.Execute | vm.ts:117-336 | the new state, or the fault, is `Executed` of the old |
| Vm.VM.Run | vm.ts:338-344 | running a ROM gives `RunFrom` of the machine with that ROM, without resetting ip, and leaves its final state |
| LegacyAssembler.NumberValue | assembler.ts:29-41 | a parsed number's value, or 0 (NaN stored as a byte) when it does not parse |
| LegacyAssembler.RegisterOrA | assembler.ts:167 | the register named, or A (`undefined` stored as a byte) for a string that names none |
| LegacyAssembler.ResolveAddressString | assembler.ts:136-142 | a number gives its value; otherwise the label's address, or `missing definition for label` exactly when the label is absent |
| LegacyAssembler.ParseOffset | assembler.ts:184-214 | an offset parses exactly when it is bracketed, and then its sign is minus exactly when the body starts with `-` |
| LegacyAssembler.ParseOffsetRefines | assembler.ts:184-214 | wherever the bracket check accepts, it agrees with the check as written |
| LegacyAssembler.RegisterOffsetForms | assembler.ts:184-214 | `[r]` and `[-r]` give plus- and minus-signed register offsets |
| LegacyAssembler.LiteralOffsetForms | assembler.ts:184-214 | `[+n]` and `[-n]` give signed literal offsets holding n modulo 256 |
| LegacyAssembler.ParseOffsetAsWrittenAcceptsUnclosed | assembler.ts:185 | the check as written accepts `[xy`, which has no closing bracket |
| LegacyAssembler.MemoryAccess | assembler.ts:144-182 | errors in the source's order (an unresolved address, then a bad offset); it succeeds exactly when the address is a register or resolves and the offset parses, and the seven bytes then decode to the opcode, the register or the address modulo 65536, and the offset |
| LegacyAssembler.ArithmeticLogic | assembler.ts:216-245 | the opcode is pushed first even on error, then the left register when it is valid; it succeeds exactly when there are two operands, the left a register and the right a register or a number, and then the bytes name the left register and the right register, or hold the Literal type and the number modulo 256 |
| LegacyAssembler.SetInstruction | assembler.ts:263-279 | set succeeds exactly when its one operand is `register=source`, and then decodes to that register and the parsed source |
| LegacyAssembler.PushInstruction | assembler.ts:281-291 | push succeeds exactly with one operand; a number gives `[Push, Literal, value]`, anything else the Register type and the register named, or A for a string that names none |
| LegacyAssembler.PopInstruction | assembler.ts:356-370 | `[Pop, A]` with no operand; with an operand it succeeds exactly when the operand is a register, and then pops into that register; on error only the opcode is pushed |
| LegacyAssembler.SyscallInstruction | assembler.ts:372-384 | syscall succeeds exactly when it has one numeric operand, giving `[SysCall, the number modulo 256]`; otherwise only the opcode is pushed |
| LegacyAssembler.ParseInstruction | assembler.ts:305-386 | an unknown first word is `encountered unknown instruction`; halt and return are one byte; a branch is `[op, high, low]` of its resolved address, the resolution error, or `expected operand` without exactly one operand; every other family gives its encoder's result; a success has the opcode's width |
| LegacyAssembler.ArithmeticLogicExamples | assembler_test.ts:357-366 | `+ a x` gives `[Add, A, Register, X]`, `- a 123` gives `[Subtract, A, Literal, 123]`, and `+ a` throws `expected 2 operands` |
| LegacyAssembler.PopExamples | assembler_test.ts:368-370 | `pop x` gives `[Pop, X]` and `pop` gives `[Pop, A]` |
| LegacyAssembler.PushExamples | assembler_test.ts:406-418 | `push 123` gives `[Push, Literal, 123]` and `push fp` gives `[Push, Register, FP]` |
| LegacyAssembler.CallExample | assembler_test.ts:419-423 | `call 123` gives `[Call, 0, 123]` |
| LegacyAssembler.JumpExamples | assembler_test.ts:445-450 | `jump!=0 label` with the label at 0 gives `[JumpIfNotZero, 0, 0]`, and a jump to an undefined label throws `missing definition for label` |
| LegacyAssembler.SyscallExample | assembler_test.ts:462-466 | `syscall 123` gives `[SysCall, 123]` |
| LegacyAssembler.LiteralAddressExample | assembler_test.ts:393-404 | `poke 0xcccc` gives `[Poke, Literal, 0xcc, 0xcc, Literal, Plus, 0]` |
| LegacyAssembler.RegisterAddressExample | assembler.ts:144-214 | `peek xy[-a]` gives `[Peek, Register, XY, 0, Register, Minus, A]` |
| LegacyAssembler.ClassifyLabel | assembler.ts:114-119 | pass 1 takes a line for a label exactly when it ends in `:` once trimmed, and names the text before the colon |
| LegacyAssembler.ClassifyInstruction | assembler.ts:120-128 | pass 1 takes a line for an instruction only when its first word is a mnemonic |
| LegacyAssembler.LineBytes | assembler.ts:293-309 | what pass 1 takes for a label emits nothing; every other line assembles as written |
| LegacyAssembler.LabelTestsDisagree | assembler.ts:305-309 | pass 1 takes "halt a:" for a label, and the pass 2 as written assembles it as a halt |
| LegacyAssembler.ScanOutcome | assembler.ts:109-130 | pass 1 fails exactly when some line's first word is no mnemonic, and otherwise ends at the summed widths |
| LegacyAssembler.ScanErrorSticks | assembler.ts:125-126 | the first unknown instruction ends pass 1 |
| LegacyAssembler.LabelBinding | assembler.ts:109-130 | a label is bound to pass 1's address at its last definition |
| LegacyAssembler.CollectErrorSticks | assembler.ts:389-397 | the first line that throws ends pass 2 |
| LegacyAssembler.CollectPrefix | assembler.ts:389-397 | the program built from the first lines is a prefix of the whole program |
| LegacyAssembler.LineWidthAgrees | assembler.ts:109-130 | a line that assembles emits the width pass 1 counted for it |
| LegacyAssembler.AddressIsOffset | assembler.ts:389-399 | when both passes succeed, pass 1's final address is the program's length |
| LegacyAssembler.LabelsAreOffsets | assembler.ts:109-130 | a label's address is the offset in the program where the code after its definition starts |
| LegacyAssembler.ToBytes | assembler.ts:398 | the program becomes a byte array of the same length, each value taken modulo 256 |
| LegacyAssembler.Assembler.RegisterLabelAddresses | assembler.ts:109-130 | the labels and error are those of `ScanLabels` over the source's lines |
| LegacyAssembler.Assembler.ParseLine | assembler.ts:293-387 | the line's values are appended to the program and its error returned |
| LegacyAssembler.Assembler.ParseLines | assembler.ts:394-396 | the lines' values up to the first error are appended, and that error returned |
| LegacyAssembler.Assembler.Run | assembler.ts:389-399 | pass 1, then pass 2 with pass 1's labels; the program as bytes, or the first error |
| Preprocessor.AssignUpdates | preprocessor.ts:13 | assigning a definition sets that name's value, leaves other names alone, and appends a new name at the end |
| Preprocessor.DefinitionsDistinct | preprocessor.ts:10-17 | the definitions hold each name once |
| Preprocessor.LaterDefinitionWins | preprocessor.ts:10-17 | a name's value is the value of its last `$define` line |
| Preprocessor.DefinitionOrder | preprocessor.ts:20 | the definitions are applied in the order of each name's first definition |
| Preprocessor.DefineLinesDropped | preprocessor.ts:10-17 | the kept text is the lines that are not definitions, each followed by a newline |
| Preprocessor.NoDefinitionsKeepsSource | preprocessor.ts:2-28 | a source without definitions comes back with one trailing newline added |
| Preprocessor.DefineThenUse | preprocessor.ts:2-28 | a definition followed by a line that uses it gives that line with the value in place of `$name` |
| Preprocessor.UseBeforeDefinition | preprocessor.ts:2-28 | a use before its definition is replaced too |
| Preprocessor.DefineThenUseExample | preprocessor_test.ts:7-16 | `$define TOKEN 123` followed by `call $TOKEN` gives `call 123` |
| Preprocessor.Run | preprocessor.ts:2-28 | the method returns `Preprocessed(source)` |
| Disassembler.StepUnknown | dissasembler.ts:13 | a byte that is no opcode throws `unknown opcode:` with the listing so far |
| Disassembler.AppendOperands | dissasembler.ts:19-23 | the operand loop appends each operand byte, space-separated, and moves ip past them |
| Disassembler.Run | dissasembler.ts:4-29 | the method returns `DisassembleFrom(program, 0, "")` |
| Disassembler.EmptyProgram | dissasembler.ts:9 | an empty program disassembles to the empty text |
| Disassembler.Encode | dissasembler.ts:19 | a reference encoder written for the listing lemmas, not code of the disassembler; the bytes it gives for well-formed instructions are their summed widths, the widths the operand loop at this line steps over |
| Disassembler.WalkInstructions | dissasembler.ts:9-26 | a run of well-formed instructions is listed one line each, wherever it sits in the program |
| Disassembler.DisassembleEncoded | dissasembler.ts:4-29 | disassembling encoded instructions gives their listing |
| Disassembler.UnknownOpcode | dissasembler.ts:13 | a bad opcode after encoded instructions throws with their listing as the text so far |
| Disassembler.TruncatedInstruction | dissasembler.ts:19-23 | operand bytes past the end print as `undefined` |
| Debugger.BranchTarget | debug.ts:26 | a branch target is NaN exactly when its bytes run past the program, and is otherwise a 16-bit address |
| Debugger.ScanUnknown | debug.ts:23 | a byte that is no opcode throws `unknown opcode:` |
| Debugger.WalksAgree | debug.ts:18-82 | the listing fails exactly when the branch scan fails, with the scan's message followed by the text so far |
| Debugger.BranchTargetsOfEncoded | debug.ts:18-37 | the scan of encoded instructions finds exactly their branch targets |
| Debugger.UnknownOpcodeInBothWalks | debug.ts:18-54 | a bad opcode after encoded instructions fails both walks |
| Debugger.TruncatedBranch | debug.ts:26 | a branch cut short by the end of the program records a NaN target |
| Debugger.NaNColumn | debug.ts:67-68 | a NaN target prints as ` $0NaN` |
| Debugger.LabelShowsAddress | debug.ts:57-59 | each line starts with `$`, the address padded to four digits, and a space, and the digits read back as the address |
| Debugger.PaddedDigits | debug.ts:57 | the padded address reads back as the address and is exactly four digits below 10000 |
| Debugger.DisassemblyDebugger.constructor | debug.ts:9-16 | a new debugger has no branch addresses |
| Debugger.DisassemblyDebugger.GetBranchAddresses | debug.ts:18-37 | the branch addresses grow by the scan's targets, and the scan's error is returned |
| Debugger.DisassemblyDebugger.Run | debug.ts:39-82 | the scan runs first and its error is thrown; otherwise the result is the listing marked with the collected addresses |
| Debugger.DisassemblyDebugger.List | debug.ts:46-81 | the listing loop returns `ListFrom` with the current branch addresses |
| Debugger.DisassemblyDebugger.FormatInstruction | debug.ts:51-78 | one line: the marked or plain address, the name, and either the branch target or the operand bytes |

## Left out

- The lexer (`assembler/lexer.ts`) is not part of this model. A token list stands for its output. `Tokens.LexerOutput` states what the parser relies on: the list ends in `eof`, every integer literal parses, and every register literal names a register.
- Reading files (the `FileResolver` and Deno's file system) is modelled by a map from file name to that file's token list. A name missing from the map is the failure the resolver would throw.
- The blueberry compiler, the sandbox and the command-line entry point are not part of this model.
- `debugLog` and every `console.log` are left out. They print but change no state.
- The syscall listeners are not part of this model.
- JavaScript's `in` on the older assembler's instruction tables is modelled as exact membership. Names such as "constructor", which reach `Object.prototype`, are not modelled there.
- Vm.Operation: `Divide` yields a value only when the quotient is an integer. JavaScript's `/` yields a floating-point number, which the model does not represent, so an inexact division stops the machine with `InexactDivision`.
- Vm.RunFrom and Vm.VM.Run: the run loop takes a `fuel` bound on the number of instructions. A program that loops forever ends with `OutOfFuel` rather than diverging.
- Vm.PeekInstruction: a read outside memory gives `undefined` in JavaScript and later turns into NaN. The model stops with a fault instead.
- Vm.VM.Fetch: a fetch past the end of the ROM gives `undefined`. The model returns `None`, and an instruction whose operands are cut short stops with `TruncatedInstruction`.
- Driver.Assembler.CombineIRTokens and Driver.Assembler.CombineNodes: these take a ghost `rank` that orders files by import depth. They require the imports to be acyclic. With a cyclic import the source recurses until the JavaScript stack overflows, which the model does not represent.
- Driver.Assembler.Run: its contract assumes the same acyclic ranking of the sources. Its ghost result `resolved` says whether import resolution succeeded.
- Numbers.ParseNumber: JavaScript's `parseInt` reads the longest valid prefix. The model accepts only texts that are entirely digits of their base and treats anything else as not a number. Inputs such as "12abc" are therefore not modelled.
- Generator.ResolveLabelAddress: `name in this.labels` on a plain object also accepts names inherited from `Object.prototype`. Because the lexer drops the `$` of a label reference, `jump $toString` without a definition encodes as `[Jump, 0, 0]` in the code, and is an `undefined label` error in the model.
- Generator.ResolveConst: `operand.value in this.consts` also accepts inherited names, and the code then reads the inherited property as a definition. The model reports a reference error for any name that was never defined.
- Generator.ResolveAddress: inherits the two differences above for labels and consts.
- LegacyAssembler.ResolveAddressString: `label in this.labels` also accepts inherited names. `jump toString` without a definition encodes as `[Jump, 0, 0]` in the code, and is `missing definition for label` in the model.
- LegacyAssembler.LineBytes: pass 2 skips exactly the lines pass 1 takes for labels, the corrected label test. The code skips only lines whose first word ends in `:`, so `halt a:` assembles to a halt there and to nothing here. `LineBytesAsWritten` and `LabelTestsDisagree` model the code's test.
- LegacyAssembler.MemoryAccess: uses the corrected bracket test `ParseOffset`. For `peek 10[xy` the code encodes register X as the offset, while the model reports `invalid offset: [xy`. `ParseOffsetAsWritten` models the code's test. The address and the offset register are also checked with the exact register test described below.
- LegacyAssembler.ArithmeticLogic: uses the exact register test `Numbers.IsRegister`. The code's `s in RegisterName` also accepts inherited names, so `+ constructor 1` passes its register check, while the model throws `+: first operand must be register`.
- LegacyAssembler.SetInstruction: uses the exact register test, so `set constructor=1` is rejected here and passes the code's check.
- LegacyAssembler.PopInstruction: uses the exact register test, so `pop constructor` is rejected here and passes the code's check.
- LegacyAssembler.Assembler.ParseLine: is built on `LineBytes`, so it has the three corrected tests above.
- LegacyAssembler.Assembler.ParseLines: inherits the corrected tests of `ParseLine`.
- LegacyAssembler.Assembler.Run: inherits the corrected tests, so its output for `halt a:`, `peek 10[xy` and `+ constructor 1` differs from the code's.
- Text.ReplaceAll: JavaScript's `replaceAll` expands the patterns `$&`, `$$`, `` $` `` and `$'` in a string replacement. The model inserts the replacement literally, which agrees with the code for replacements without `$`.
- Preprocessor.Preprocessed: substitutes values literally and applies definitions in insertion order. The two items below describe where this differs from the code.
- Preprocessor.DefineThenUse: holds in the code only for values without `$` patterns. With `$define A $&x`, the use `$A` becomes `$Ax` in the code and `$&x` in the model.
- Preprocessor.UseBeforeDefinition: holds in the code only for values without `$` patterns, as for `DefineThenUse`.
- Preprocessor.DefinitionOrder: `Object.entries` lists integer-like names such as "1" first, in ascending order, and only then the others in insertion order. The model's order agrees with the code for names that are not integer-like. With `$define 2 $1`, `$define 1 z` and the use `$2`, the code gives `$1` and the model gives `z`.
- Driver.Assembler.ResolveImports: the memo test `this.imports[filename]` is also truthy for names inherited from `Object.prototype`. In the code `import "toString"` is therefore never read, and `combineIRTokens` then fails because the inherited value is not iterable. The model treats such a name as an ordinary file name.
- Vm.Step: registers are JavaScript numbers, that is doubles, which lose integer precision beyond 2^53. The model's registers are unbounded integers, so results of arithmetic beyond 2^53 are exact here and rounded in the code.
- LegacyAssembler.NumberValue: NaN from a malformed number is stored as 0, as a `Uint8Array` does. The intermediate NaN itself is not represented.

## Findings

| source | as written | input that shows it | evidently intended | confidence | as-written member | corrected member |
|---|---|---|---|---|---|---|
| assembler.ts:43-45 | `s in RegisterName` (the same test as assembler/assembler.ts:28-30) is also true for properties inherited from `Object.prototype` | "constructor" | only the seven register names count as registers | high, not executed | Numbers.IsRegisterAsWrittenAcceptsConstructor | Numbers.IsRegisterExactly |
| assembler.ts:185 | the offset is rejected only when it lacks BOTH brackets (an 'and' of the two tests where an 'or' was meant) | "[xy" | an offset must start with `[` and end with `]` | high, not executed | LegacyAssembler.ParseOffsetAsWrittenAcceptsUnclosed | LegacyAssembler.ParseOffset |
| assembler.ts:305-309 | pass 1 (line 118) treats a trimmed line ending in `:` as a label, but pass 2 skips only lines whose first word ends in `:`, so pass 2 assembles what pass 1 did not count | "halt a:" | both passes agree on what a label line is, so that label addresses are code offsets | medium, not executed | LegacyAssembler.LabelTestsDisagree | LegacyAssembler.LabelsAreOffsets |
