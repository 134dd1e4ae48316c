# Hack assembler and VM translator, in Dafny

This project models two tools of the nand2tetris tool chain and proves
properties of them:

- **The Hack assembler** (`06/HackAssembler.py`). It turns symbolic Hack
  assembly into 16-bit binary words, one text line per word.
  - It uses the three code tables for computation, destination and jump.
  - It seeds the symbol table with the platform symbols and the registers
    R0..R15.
  - It encodes A- and C-instructions.
  - It makes two passes: the first binds labels to instruction addresses, and
    the second emits words and allocates variables from address 16 in order of
    first use.
- **The VM translator** (`07/VMTranslator.py`). It translates stack-machine
  commands (arithmetic, `push`, `pop`) into Hack assembly.
  - Its line parser is modelled.
  - Its code writer is a class holding a comparison counter and the lines
    written so far.
  - Its driver loop is modelled.
  - The trailer is written when the output is closed.
- **What the emitted code does.** A reference Hack machine runs the
  assembly the translator writes, read the way the assembler reads it. For
  every arithmetic, logical, push and pop command, it shows that the code does
  to the stack what the VM command means.

## Modules

| file | module | what it models |
|---|---|---|
| `Text.dfy` | `Text` | Python's `startswith`, `endswith`, substring `in`, `split`, `replace` and `count` on `seq<char>` |
| `Numerals.dfy` | `Numerals` | decimal and binary numerals: `int`, `bin`, `isdigit` and integer f-strings |
| `HackCode.dfy` | `HackCode` | the three code tables and `C_Instruction` |
| `HackAlu.dfy` | `HackAlu` | the Hack ALU, used as a reference for what the computation table's bits mean |
| `HackAssembler.dfy` | `HackAssembler` | the symbol table, `str_to_15`, `A_Instruction` and the two passes (class `Assembler`) |
| `VMParser.dfy` | `VMParser` | `parser` |
| `VMCodeWriter.dfy` | `VMCodeWriter` | `SEGMENT_MAPPING` and the `codeWriter` class (class `CodeWriter`) |
| `VMTranslator.dfy` | `VMTranslator` | the `process` loop |
| `HackMachine.dfy` | `HackMachine` | a reference Hack CPU (A, D, RAM) running lines of assembly as the assembler reads them |
| `VMSemantics.dfy` | `VMSemantics` | the code writer's stack blocks and arithmetic code, read back and run |
| `VMExecution.dfy` | `VMExecution` | an arithmetic command's code run in place inside a program, jumps included |
| `VMStackAccess.dfy` | `VMStackAccess` | a push or pop command's code, read back and run |

### How the model is built

- **Output lines.** Output is a sequence of lines, each without its newline.
- **Imperative parts.** The parts of the source that change state step by step
  are classes and methods with loops:
  - the parser's space-skipping loop;
  - the register loop of `init_symbol_table`;
  - the padding loop of `str_to_15`;
  - both assembler passes;
  - the code writer;
  - the translator loop.
- **Specifications.** Each of those methods is proved equal to a function over
  the inputs, such as `EmitWords`, `BindLabels`, `ArithmeticCode` or
  `Translate`. The lemmas state what those functions guarantee.
- **Python errors.** A Python exception becomes an `ok` flag that is false,
  and the lines written before the error are kept. The errors modelled are:
  - a failed unpacking;
  - a missing dictionary key;
  - an index out of range;
  - `int()` of a token that is not a number.

  In the translator the trailer is still written after an error, because the
  source's `with` statement calls `__exit__` on the way out.

### Behaviour kept as written

These are cases where the code departs from the usual Hack/VM conventions. The
model follows the code:

- **`temp`** is reached through the symbol `TEMP`, like a base pointer:
  `@TEMP`, then `A=M+D`. It is not reached at the fixed address 5+i.
- **`pointer`** with an index other than `0` or `1` writes no address code.
  Only the comment and the stack code are written.
- **`pop constant i`** pops into RAM[i].
- **Unknown commands.** A line whose first token is not a command is reported
  and skipped.
- **Short `push`/`pop`.** A `push` or `pop` with fewer than two operands stops
  the translation.
- **Duplicate labels.** A label defined twice keeps its last address.
- **`DEST_MAP`** has no `MAD` or `MDA` entry. Those destinations are rejected
  with `UnknownDest` (`MadRejected`, `MdaRejected`).
- **Unclosed labels.** A line such as `(LOOP` starts with `(` but does not end
  with `)`. The first pass counts it as an instruction; the second pass skips
  it as a label. Every later label is then bound one address too high
  (`UnclosedLabelShifts`). `PassesAgree` requires that no such line occurs.
- **`C_Instruction`** splits off a jump only when the line contains `;J`.
  After a dest split, a trailing `;` left in the computation is dropped.

### Running the emitted code

`HackMachine` is a reference for the Hack CPU. The source has no such
component: the model uses it to state what the translator's output means.

- **Reading lines.** A line is decoded through the assembler's own reading of
  it (`Pass2Kind`, `SplitC`, `CompKey`).
  - An A-instruction loads a decimal constant, or the address the symbol table
    gives a symbol, in 15 bits. An unknown symbol loads 0.
  - A C-instruction computes `CompMeaning` of its key, with D as x and A, or
    RAM[A], as y. It stores the value in the registers its dest names. It
    jumps when its jump condition holds of the value's sign.
  - A C-instruction the assembler cannot encode, a comment and a blank line do
    nothing.
- **Jumps.** A taken jump continues at the first label in the program that the
  symbol table binds to the address in A. For a comparison, the model assumes
  its three labels are bound to three different addresses, none of them bound
  to an earlier label (`LabelsPlaced`).
- **Fuel.** `Exec` runs for a given number of steps. A comment line or a label
  costs a step like any instruction.
- **The stack.** The stack is the RAM from an address `base` up to SP, with
  `base` at least 16. The statements about the stack (`OutcomeStack`,
  `PushStack`, `PopStack`) speak about RAM[16] and above. The code also uses
  SP, R13 and R14.
- **Comparisons.** `gt` and `lt` test the sign of the 16-bit difference x - y,
  as `D=M-D` followed by `JGT` or `JLT` does. When the difference overflows,
  the result is not the comparison of x and y as signed numbers. For example,
  `gt` of 32767 and -1 gives false. The model keeps this behaviour.

## Model

| member | source | states |
|---|---|---|
| `HackCode.CInstruction` | 06/HackAssembler.py:158-191 | an encoded C-instruction is a 16-bit string of bits beginning `111`; a line is encoded exactly when it splits into dest, computation and jump and all three (the computation with `A`/`M` read as `X`) are table keys, and the word is then `111`, the a-bit (1 exactly when the computation contains `M`), and the three table codes; a line whose `;`/`=` split does not give two parts fails with `BadSplit` |
| `HackCode.DestRejected` | 06/HackAssembler.py:182-185 | a line `dest=comp` with a known computation and a destination missing from the destination table fails with `UnknownDest` |
| `HackCode.MadRejected` | 06/HackAssembler.py:61-78 | `MAD=D` is rejected with `UnknownDest`, because the destination table has no `MAD` entry |
| `HackCode.MdaRejected` | 06/HackAssembler.py:61-78 | `MDA=D` is rejected with `UnknownDest`, because the destination table has no `MDA` entry |
| `HackCode.Fields` | 06/HackAssembler.py:190 | with fields of widths 6, 3 and 3 the word has 16 bits: `111`, then the a-bit, then the comp, dest and jump codes at positions 4-9, 10-12 and 13-15 |
| `HackCode.TableEntries` | 06/HackAssembler.py:38-89 | every entry of the computation table is a 6-bit string; every dest and jump entry is a 3-bit string |
| `HackCode.KeyCharacters` | 06/HackAssembler.py:38-89 | no table key contains `;` or `=`; no computation key names `A` or `M`; every jump key except the absent one starts with `J` |
| `HackCode.DestTableByRegisters` | 06/HackAssembler.py:61-78 | a dest code sets exactly the bits A, D and M of the registers its mnemonic names; the absent dest is `000` |
| `HackCode.DestPermutationInvariant` | 06/HackAssembler.py:61-78 | two dest mnemonics that name the same set of registers have the same code |
| `HackCode.JumpTableBySign` | 06/HackAssembler.py:80-89 | the three jump bits say whether the jump is taken on a negative, zero and positive value; the absent jump is never taken |
| `HackCode.CompKeyOfOperand` | 06/HackAssembler.py:176-179 | replacing `M` and then `A` by `X` turns a computation written with either register back into its table key; `M` appears exactly when the operand is `M` and the key uses the operand |
| `HackCode.SplitRendered` | 06/HackAssembler.py:164-172 | the dest/comp/jump split reads back the three fields a line was written from, and gives `-1` for an absent dest or jump |
| `HackCode.JumpSplit` | 06/HackAssembler.py:164-165 | a line holds `;J` exactly when it has a jump; the split then gives the text before and after the one `;` |
| `HackCode.DestSplit` | 06/HackAssembler.py:166-167 | a body holds `=` exactly when it has a dest; the split then gives the dest and the computation |
| `HackCode.CInstructionFields` | 06/HackAssembler.py:158-191 | any line written from table mnemonics (optional dest, computation with `A` or `M`, optional jump) encodes to the word built from exactly those table codes; the a-bit is 1 exactly for an `M` operand |
| `HackAlu.CompTableMatchesAlu` | 06/HackAssembler.py:38-59 | for every key and all 16-bit register values, the Hack ALU driven by the key's 6 control bits computes what the mnemonic says, with addition and subtraction modulo 2^16 and bitwise `!`, `&`, `|` |
| `Numerals.ToBinary` | 06/HackAssembler.py:138 | `bin(n)` without `0b`: a string of bits whose value is n, with no leading zero |
| `Numerals.NatToDecimal` | 06/HackAssembler.py:118 | the decimal text of n: digits only, no leading zero, and its value is n |
| `Numerals.NatToDecimalInjective` | 06/HackAssembler.py:117-118 | different numbers have different decimal texts |
| `HackAssembler.InitSymbolTable` | 06/HackAssembler.py:105-120 | the loop builds the platform symbols plus R0..R15 |
| `HackAssembler.InitialTableContents` | 06/HackAssembler.py:105-120 | the initial table holds exactly the seven platform symbols at their fixed addresses, plus R0..R15 bound to 0..15, and no register shadows a platform symbol |
| `HackAssembler.RegistersContents` | 06/HackAssembler.py:116-118 | the register map holds exactly R0..R(n-1), each bound to its own number |
| `HackAssembler.RegisterNameInjective` | 06/HackAssembler.py:117-118 | different register numbers have different names |
| `HackAssembler.StrTo15` | 06/HackAssembler.py:122-125 | the result is the input with `0`s prepended to make it 15 characters long; an input already that long is returned unchanged |
| `HackAssembler.EncodeAddressValue` | 06/HackAssembler.py:136-147 | an address word starts with `0` and is made of bits whose value is the address; it is 16 characters long exactly when the address is below 2^15 |
| `HackAssembler.ALiteral` | 06/HackAssembler.py:136-139 | `@k` for a decimal k below 2^15 gives a 16-bit word of value k, and leaves the table and the variable cursor unchanged |
| `HackAssembler.ABound` | 06/HackAssembler.py:141-147 | `@v` for a bound symbol gives its address and changes nothing |
| `HackAssembler.AFresh` | 06/HackAssembler.py:141-147 | `@v` for a new symbol binds it to the variable cursor, advances the cursor by one, and gives that address |
| `HackAssembler.Assembler.constructor` | 06/HackAssembler.py:98-103 | a new assembler starts from the initial table, with variables from 16 and no output |
| `HackAssembler.Assembler.AInstruction` | 06/HackAssembler.py:132-147 | the word and the new table and cursor are those of `ResolveA` on the old ones |
| `HackAssembler.Assembler.FirstPass` | 06/HackAssembler.py:202-219 | the table after the loop is the old table with each label bound by `BindLabels` |
| `HackAssembler.LabelAddress` | 06/HackAssembler.py:214-219 | after the first pass, a label is bound to the number of instructions before its last definition |
| `HackAssembler.NoDefinition` | 06/HackAssembler.py:214-216 | a symbol that is never defined as a label keeps its binding, or stays unbound, through the first pass |
| `HackAssembler.Assembler.SecondPass` | 06/HackAssembler.py:222-243 | the table, cursor, appended words and `ok` are those of `EmitWords`; the loop stops at the first C-instruction that cannot be encoded |
| `HackAssembler.EmitKeepsBindings` | 06/HackAssembler.py:141-147 | the second pass never changes an existing binding and never moves the variable cursor back |
| `HackAssembler.FreshAllocation` | 06/HackAssembler.py:141-143 | variables are allocated in order of first use: the j-th new symbol gets address cursor+j, the cursor ends past the last one, and nothing else is added |
| `HackAssembler.OneWordPerInstruction` | 06/HackAssembler.py:232-243 | a successful second pass emits one word per A- or C-instruction line and nothing for labels, blank lines and comments |
| `HackAssembler.LineKindsAgree` | 06/HackAssembler.py:203-239 | both passes skip the same lines; a label for the first pass is skipped by the second; an instruction for the second pass is counted by the first |
| `HackAssembler.PassesAgree` | 06/HackAssembler.py:202-243 | when every line starting with `(` is a complete label, the number of instructions the first pass counts before any line equals the number of words the second pass emits before it |
| `HackAssembler.UnclosedLabel` | 06/HackAssembler.py:214-219 | a line `(name` without a closing `)` is counted as an instruction by the first pass and skipped as a label by the second |
| `HackAssembler.ClosedLabel` | 06/HackAssembler.py:214-216 | a line `(name)` defines the label `name` in the first pass |
| `HackAssembler.UnclosedLabelShifts` | 06/HackAssembler.py:214-237 | for the lines `(name` then `(next)`, the first pass binds `next` to address 1 and counts one instruction before it, while the second pass emits no word at all |
| `HackAssembler.Assembler.Run` | 06/HackAssembler.py:193-243 | the two passes together: the words, table and cursor are `EmitWords` over the table after `BindLabels` |
| `HackAssembler.AssembleProgram` | 06/HackAssembler.py:98-103 | a whole run from a new assembler gives the words of `Assembly(lines)`; on success there is one word per instruction line |
| `VMParser.OpOf` | 07/VMTranslator.py:69-71 | a token read as an operation is that operation's name |
| `VMParser.OpNameRoundTrip` | 07/VMTranslator.py:3-6 | every operation name reads back as the same operation, and a token reads as an operation exactly when it is one of the nine names |
| `VMParser.TrimLeadingSpaces` | 07/VMTranslator.py:44-51 | the result is a suffix of the line that does not start with a space, and everything removed was spaces |
| `VMParser.ParseLine` | 07/VMTranslator.py:40-73 | the parser with its space-skipping loop gives the command `Parse` assigns to the line |
| `VMParser.TrimSpaces` | 07/VMTranslator.py:44-51 | any number of leading spaces is removed, and nothing else |
| `VMParser.ParseBlank` | 07/VMTranslator.py:52-54 | an empty line, a lone newline or a `//` comment, after any spaces, is ignored |
| `VMParser.CutComment` | 07/VMTranslator.py:55-58 | cutting the comment and the newline off a command followed by a comment, a newline or a space leaves the command text, followed by nothing or by a space |
| `VMParser.TokensOf` | 07/VMTranslator.py:59-68 | a rendered command splits into its keyword or operation name, then for `push`/`pop` its segment and index |
| `VMParser.ParseRender` | 07/VMTranslator.py:40-73 | every command, after any leading spaces and followed by nothing, a newline, a comment or further tokens, parses back to itself |
| `VMCodeWriter.AddressCode` | 07/VMTranslator.py:229-288 | the address code fails exactly for a segment that is neither direct nor in `SEGMENT_MAPPING`, or a `static` index that `int()` rejects |
| `VMCodeWriter.PythonIntRoundTrip` | 07/VMTranslator.py:246 | `int()` reads back the decimal text of any integer |
| `VMCodeWriter.StaticSlot` | 07/VMTranslator.py:245-247 | `static i` succeeds and addresses RAM[16+i] |
| `VMCodeWriter.TrueFalseLabels` | 07/VMTranslator.py:124-133 | the true/false block of comparison n defines exactly TRUEn, FALSEn and NEXTn, in that order |
| `VMCodeWriter.ArithmeticLabels` | 07/VMTranslator.py:135-227 | only comparisons define labels: the three labels numbered by the current count |
| `VMCodeWriter.PushPopLabels` | 07/VMTranslator.py:229-288 | push and pop code defines no labels, whatever the operands |
| `VMCodeWriter.LabelOwner` | 07/VMTranslator.py:124-133 | a label belongs to one comparison number only |
| `VMCodeWriter.CodeWriter.constructor` | 07/VMTranslator.py:80-82 | a new writer has count 0 and has written nothing |
| `VMCodeWriter.CodeWriter.PopOne` | 07/VMTranslator.py:95-103 | appends exactly the pop-to-R13 code |
| `VMCodeWriter.CodeWriter.PopTwo` | 07/VMTranslator.py:105-114 | appends the pop-to-R13 code, then the pop-to-R14 code |
| `VMCodeWriter.CodeWriter.PushD` | 07/VMTranslator.py:116-122 | appends exactly the push-D code |
| `VMCodeWriter.CodeWriter.TrueFalseLogic` | 07/VMTranslator.py:124-133 | appends the true/false block numbered by the current count |
| `VMCodeWriter.CodeWriter.WriteArithmetic` | 07/VMTranslator.py:135-227 | appends the command's `ArithmeticCode` at the current count; the count goes up by one exactly for `eq`, `gt` and `lt` |
| `VMCodeWriter.CodeWriter.WriteUnary` | 07/VMTranslator.py:153-179 | `neg` and `not`: pop one value, combine it, push D |
| `VMCodeWriter.CodeWriter.WriteBinary` | 07/VMTranslator.py:137-173 | `add`, `sub`, `and` and `or`: pop two values, combine them, push D |
| `VMCodeWriter.CodeWriter.WriteComparison` | 07/VMTranslator.py:181-227 | a comparison appends its code with the labels of the current count and advances the count by one |
| `VMCodeWriter.CodeWriter.WritePushPop` | 07/VMTranslator.py:229-288 | appends the lines of `PushPopCode`: the comment, the address code, and the stack code only when the address code succeeded; `ok` says whether it did |
| `VMCodeWriter.CodeWriter.WriteAddress` | 07/VMTranslator.py:232-276 | appends the lines of `AddressCode`, stopping where the source raises |
| `VMCodeWriter.CodeWriter.Close` | 07/VMTranslator.py:88-93 | closing appends the END trailer |
| `VMTranslator.Process` | 07/VMTranslator.py:27-37 | the output is the translation of the parsed lines up to the first error, followed by the trailer; `ok` says whether no error occurred |
| `VMTranslator.Dispatch` | 07/VMTranslator.py:31-37 | one command changes the writer as `Step` says: arithmetic and push/pop are written, a truncated command fails, anything else leaves the writer unchanged |
| `VMTranslator.TranslateStops` | 07/VMTranslator.py:28-35 | after an error nothing more is translated |
| `VMTranslator.TranslateOk` | 07/VMTranslator.py:28-35 | the translation succeeds exactly when no command is a truncated push/pop, a push/pop on an unknown segment, or a `static` with a non-integer index |
| `VMTranslator.CountIsComparisons` | 07/VMTranslator.py:181-227 | after a successful translation the count equals the number of comparison commands |
| `VMTranslator.TranslateLabels` | 07/VMTranslator.py:124-133 | the translated code defines exactly the labels of comparisons 0 .. count-1, in order |
| `VMTranslator.AllLabelsDistinct` | 07/VMTranslator.py:124-133 | no label of the comparisons is defined twice |
| `VMTranslator.OutputLabels` | 07/VMTranslator.py:88-93 | the whole output, trailer included, defines the comparison labels and `END`, each exactly once |
| `HackMachine.LoadLine` | 06/HackAssembler.py:132-147 | a line `@v` with a plain token v is read by both passes as an A-instruction loading v |
| `HackMachine.CommentLine` | 06/HackAssembler.py:208-209 | a line beginning `//` is skipped by both passes: it does nothing |
| `HackMachine.LabelLine` | 06/HackAssembler.py:214-216 | a line `(name)` is read by the first pass as the definition of `name`, and does nothing when run |
| `HackMachine.ComputeLine` | 06/HackAssembler.py:158-191 | a C-instruction written from table mnemonics is read back with the same dest, computation key and jump; an absent field reads `-1`; the operand is M exactly when the line names M and the key uses the operand |
| `HackMachine.DecodeWritten` | 06/HackAssembler.py:203-239 | every well-formed instruction, written as a line, is read back as the same instruction |
| `HackMachine.DecodedWritten` | 06/HackAssembler.py:203-239 | a well-formed program written line by line is read back as the same program |
| `HackMachine.TargetAt` | 06/HackAssembler.py:214-216 | a taken jump to address t continues at the first label bound to t |
| `VMSemantics.PlatformLoads` | 06/HackAssembler.py:105-118 | with the initial table's bindings, `@SP`, `@THIS`, `@THAT`, `@R13` and `@R14` load 0, 3, 4, 13 and 14 |
| `VMSemantics.BlocksRead` | 07/VMTranslator.py:95-122 | the assembler reads the pop-one, pop-two, push-D and pop-into-D blocks back as the instructions the model runs |
| `VMSemantics.PopOneRun` | 07/VMTranslator.py:95-103 | popping into R13 lowers SP by one and leaves the old top in D and in R13; no other word changes |
| `VMSemantics.PopTwoRun` | 07/VMTranslator.py:105-114 | popping two values lowers SP by two, leaves y (the top) in R13, and leaves x in R14 and in D |
| `VMSemantics.PushDRun` | 07/VMTranslator.py:116-122 | pushing D stores D at the old SP and raises SP by one |
| `VMSemantics.PopToDRun` | 07/VMTranslator.py:277-288 | popping into the address in D keeps that address in R13, lowers SP by one and stores the old top at the address |
| `VMSemantics.CombineMeaning` | 07/VMTranslator.py:135-227 | with x in M and y in D, each command's combining instruction computes the command's 16-bit value, or x - y for a comparison |
| `VMSemantics.UnaryRun` | 07/VMTranslator.py:153-179 | `neg` and `not` replace the top of the stack y by -y or !y in 16 bits, with SP back where it was |
| `VMSemantics.BinaryRun` | 07/VMTranslator.py:137-173 | `add`, `sub`, `and` and `or` replace x and y by the 16-bit result and lower SP by one |
| `VMSemantics.ArithmeticRead` | 07/VMTranslator.py:135-227 | the assembler reads the code of any arithmetic command as its comment (a no-op) followed by the instructions the model runs |
| `VMExecution.ComparisonLayout` | 07/VMTranslator.py:181-227 | a comparison's code is: the comment, popping two values, x - y into D, the conditional jump to `TRUEn`, the jump to `FALSEn`, the two arms, then `(NEXTn)` and pushing D |
| `VMExecution.JumpDecides` | 07/VMTranslator.py:187-192 | with x - y in D, the `JEQ`/`JGT`/`JLT` jump is taken exactly when the comparison's result is true (-1); otherwise the result is false (0) |
| `VMExecution.ComparisonExec` | 07/VMTranslator.py:181-227 | run in place with its labels placed, a comparison goes through its 35 lines in 29 steps when true and 31 when false, and replaces x and y by -1 or 0 |
| `VMExecution.OutcomeStack` | 07/VMTranslator.py:135-227 | a command's outcome replaces its operands on top of a stack based at or above R16 by its value, and changes no other word from R16 up |
| `VMExecution.ArithmeticExec` | 07/VMTranslator.py:135-227 | the code of any arithmetic or logical command, run in place, leaves control just past its last line, in the command's outcome, after no more steps than it has lines |
| `VMStackAccess.AddressText` | 07/VMTranslator.py:232-276 | the address code of every push or pop the writer gets through is the written form of the instructions the model runs |
| `VMStackAccess.PushPopRead` | 07/VMTranslator.py:229-288 | the assembler reads the code of a push or pop as its comment (a no-op), then the address instructions, then the stack instructions |
| `VMStackAccess.AddressRun` | 07/VMTranslator.py:232-276 | the address code changes no memory. It leaves in D the slot's value for a push, or the slot's address for a pop. The slot is: base pointer plus index for a mapped segment; THIS or THAT for pointer 0 or 1; 16+i for static; the index itself for constant. For any other pointer index, D keeps its value |
| `VMStackAccess.PushRun` | 07/VMTranslator.py:231-257 | a push stores that value at the old SP and raises SP by one |
| `VMStackAccess.PopRun` | 07/VMTranslator.py:258-288 | a pop keeps the slot's address in R13, lowers SP by one and stores the old top at the slot |
| `VMStackAccess.PushPopExec` | 07/VMTranslator.py:229-288 | the code of a push or pop, run in place, runs each of its lines once, in order, and leaves control just past it |
| `VMStackAccess.PushStack` | 07/VMTranslator.py:231-257 | for the VM, a push puts the value on top of the stack and changes no other word from R16 up |
| `VMStackAccess.PopStack` | 07/VMTranslator.py:258-288 | for the VM, a pop stores the old top at the slot and changes no other word from R16 up; SP goes down by one unless the slot is SP itself; the rest of the stack is kept unless the slot lies inside it |
| `VMStackAccess.StaticAddress` | 07/VMTranslator.py:245-247 | `static i`, with 16+i below 2^15, reaches RAM[16+i] |
| `VMStackAccess.ConstantValue` | 07/VMTranslator.py:248-250 | `push constant n` pushes n modulo 2^15, the width of an A-instruction |
| `VMStackAccess.PointerSlots` | 07/VMTranslator.py:238-244 | pointer 0 and 1 reach RAM[3] and RAM[4], the THIS and THAT pointers |

## Left out

- **Files, the command line and printing.** These are not modelled:
  - reading the input file and writing the output file;
  - the output file name (`out_file_name`, and the `.asm` name in the
    translator);
  - the `print` of an undefined VM command, which the model just skips;
  - the usage message of the assembler's `main`.

  The model works on the sequence of input lines and gives the sequence of
  output lines.
- **Newlines.** Output lines are modelled without their trailing newline.
- **`L_Instruction`.** This method of the assembler is never called, so it is
  not modelled.
- **`int()` and `isdigit()`** are modelled on ASCII text:
  - `int()` accepts an optional sign followed by decimal digits;
  - `isdigit()` accepts decimal digits.

  Python also accepts surrounding whitespace, `_` separators and non-ASCII
  digits. The model treats those tokens as errors for `int()` and as symbols
  for `isdigit()`.
- **Word width.** The assembler does not limit addresses to 15 bits. A value
  of 2^15 or more gives a word longer than 16 characters. The model keeps this
  behaviour, and `EncodeAddressValue` states when the word is 16 bits long.
- **What happens after an exception** is not modelled beyond "the run stops
  here". An exception is modelled as `ok` being false, with the output written
  so far kept.
- **Running whole programs.** The execution model covers the code of one
  command at a time, run in place inside a larger program. It does not cover:
  - a whole translated program run from start to end;
  - the endless loop of the trailer;
  - a bootstrap that sets SP and the segment pointers.

  The label bindings of a comparison are an assumption (`LabelsPlaced`). They
  are not derived from the first pass over the whole output.
- **Variables during the second pass.** The machine reads symbols through one
  fixed table. The assembler's second pass binds new variables as it goes.
  The model applies to the table those bindings end in.
- **Index tokens.** `PushPopRead` and `AddressText` require the index of a
  mapped or `constant` segment to be a plain token: non-empty, with no space,
  `/`, parenthesis or `@`. Any other index is written into a line the
  assembler reads differently.
