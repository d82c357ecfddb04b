# A verified model of a toy language's lexer, built-ins and MIPS code generators

The repository implements a small interpreted/compiled language whose
keywords are song and album titles (`enchanted` for let, `isme` for
functions, `SparksFly`/`BadBlood` for booleans, `LoverEra`/`RepEra` for
if/else, `hi` for return) and whose built-in print is `SpeakNow`. This
project models its core in Dafny and proves properties of the model:

* **Token** (`token/token.go`): token kinds, their string names, and the
  reserved-word lookup `CheckIdentificador`.
* **Lexer** (`lexer/lexer.go`): the byte-level scanner. A pure function
  `Scan(input, p)` describes one call of `NextToken`. The class
  `Lexer.Lexer` keeps the source's mutable fields (`position`,
  `readPosition`, `ch`) and its methods (`ReadChar`, `PeekChar`,
  `SkipWhitespace`, `ReadIdentificador`, `ReadNumero`, `NextToken`), each
  proved against those functions.
* **Object** (`object/object.go`): the runtime values, their type tags
  and `Inspect`.
* **Builtins** (`evaluator/builtins.go`): `len`, `debut` (first element),
  `ttpd` (last), `rest`, `billboard` (push) and `SpeakNow`, including
  every error path.
* **EvalCodegen** (`evaluator/compiler.go`): the small MIPS emitter that
  writes a program's integer arithmetic with `$t1`/`$t2` as scratch.
* **MipsGen** (`compiler/mips_gen.go`): the `MIPSGenerator` class. It keeps
  its code buffer as a sequence of lines and chooses `$s0/$s1` or
  `$t1/$t2` by operator precedence.
* **Symbols** (`compiler/compiler.go`, lines 9-47): the scoped symbol table
  with 4-byte slot allocation.
* **CodegenSpec / Codegen / CodegenProps** (`compiler/compiler.go`): the
  main MIPS generator. `CodegenSpec` states each generation step as a
  pure function over an explicit `GenState`. That state holds the Go
  package globals (symbol table, register and label counters, current
  function name) and the output lines. `Codegen.Generator` is a class
  holding those globals as fields, and each of its methods is proved to
  leave exactly the state the matching function computes.
  `CodegenProps` proves what the generator guarantees: output only grows,
  the round-robin register stays in `$t0..$t7` (bool and float-comparison
  results go instead to `$t<intRegisterCount>`, which is unbounded and
  never reset), label names are fresh, the if/else block
  layout, operand conversion and operation selection, the storage of let
  bindings and parameters, the layout of a call, and the fact that no
  value ever gets the float type. A call whose callee is not a name
  panics in the source after its arguments are pushed; the model returns
  that as an outcome (`CodegenSpec.CallOutcome`).
* **CodegenLabels** (`compiler/compiler.go`): every `label_N:` line a
  generator writes defines a label that generator took from
  `getNextLabel`, and none twice, so a whole compilation defines each of
  `label_1` … `label_N` at most once.
* **Mips** (support): an abstract MIPS machine (registers, a stack,
  `li`/`move`/`add`/`sub`/`mul`/`div`/`mflo`/`neg`, push and pop).
  Together with `Eval`, the integer meaning of an expression, it is used
  to state what the emitted code computes.

Output text is modelled as a sequence of lines. `Emit.Text` joins them
with a `"\n"` after each line, which is what `strings.Builder` holds after
the source's `writeLine`/`emit` calls. Go's `int64` values are modelled as
unbounded `int`.

## Model

| member | source | states |
|---|---|---|
| Strings.IntToString | object/object.go:27 | `%d` text is non-empty and begins with `-` exactly when the number is negative |
| Strings.NatRoundTrip | object/object.go:27 | parsing the decimal text of a natural number gives the number back |
| Strings.IntRoundTrip | object/object.go:27 | the `%d` text of any integer is well-formed decimal and parses back to the same integer |
| Strings.IntToStringInjective | compiler/compiler.go:361-364 | different integers print differently |
| Strings.NumberedNamesDistinct | compiler/compiler.go:361-364 | names made of a fixed prefix and different numbers (`label_%d`, `func_%d`) differ |
| Token.CheckIdentificador | token/token.go:67-72 | the result is `ID` or a keyword kind, and it is `ID` exactly when the word is not in the reserved-word table |
| Token.KeywordMapping | token/token.go:57-65 | each of the seven reserved words maps to its keyword kind |
| Token.KeywordSpellingUnique | token/token.go:57-65 | two words that map to the same keyword kind are the same word |
| Token.LookupIsCaseSensitive | token/token.go:67-72 | a reserved word spelled with a different letter case is an identifier |
| Token.NameInjective | token/token.go:10-55 | different token kinds have different string constants |
| Lexer.SliceBytes | lexer/lexer.go:103 | the literal cut from the input converts back to exactly the bytes `input[position:l.position]` it was cut from |
| Lexer.SkipFrom | lexer/lexer.go:110-114 | skipping stops at the first non-blank byte and everything skipped is a blank |
| Lexer.LetterRunEnd | lexer/lexer.go:116-126 | the identifier run is the maximal run of letters and `_` |
| Lexer.DigitRunEnd | lexer/lexer.go:97-108 | the number run is the maximal run of decimal digits |
| Lexer.Lexer.constructor | lexer/lexer.go:142-146 | a new lexer has read the first byte, or NUL for empty input |
| Lexer.Lexer.ReadChar | lexer/lexer.go:132-140 | advances one byte; past the end the current byte is NUL |
| Lexer.Lexer.PeekChar | lexer/lexer.go:88-95 | returns the next byte without moving, or NUL past the end |
| Lexer.Lexer.SkipWhitespace | lexer/lexer.go:110-114 | moves to the position `SkipFrom` computes |
| Lexer.Lexer.ReadIdentificador | lexer/lexer.go:116-122 | consumes the letter run and returns exactly its bytes |
| Lexer.Lexer.ReadNumero | lexer/lexer.go:97-104 | consumes the digit run and returns exactly its bytes |
| Lexer.Lexer.NextToken | lexer/lexer.go:12-86 | returns the token and lands on the position that `Scan` gives for the old position |
| Lexer.Bytes | lexer/lexer.go:142-146 | the byte form of an ASCII string has one byte per character |
| Lexer.ScanAdvances | lexer/lexer.go:84 | every call moves the lexer forward |
| Lexer.ScanPastEnd | lexer/lexer.go:58-60 | at or past the end of input the token is EOF with an empty literal |
| Lexer.EofForever | lexer/lexer.go:58-60 | once the input is exhausted every later call returns EOF |
| Lexer.EofIffZeroByte | lexer/lexer.go:58-60 | EOF is returned exactly when the first non-blank byte is NUL (the end of input or a NUL inside it) |
| Lexer.TwoByteOperators | lexer/lexer.go:18-37 | `=` followed by `=` is `==` and consumes two bytes, otherwise `=`; likewise `!=` and `!` |
| Lexer.ScanWord | lexer/lexer.go:62-65 | a word token is produced exactly when the first byte is a letter; its literal is the maximal letter run and its kind is the reserved-word lookup of it |
| Lexer.ScanInt | lexer/lexer.go:66-79 | an INT literal is a maximal digit run not followed by `.` |
| Lexer.NumberScan | lexer/lexer.go:66-79 | under a digit (after the blanks) a call takes the number branch |
| Lexer.IntegerToken | lexer/lexer.go:66-79 | a digit run with no `.` after it is an INT token holding exactly the run, and the lexer stops at the run's end |
| Lexer.FloatStartsWithDigit | lexer/lexer.go:17-83 | a FLOAT token is produced only when the first non-blank byte is a digit |
| Lexer.ScanFloat | lexer/lexer.go:66-79 | a FLOAT literal is digits, `.`, digits, with both runs maximal |
| Lexer.ScanDanglingDot | lexer/lexer.go:68-75 | digits, then `.`, then a non-digit give an ILLEGAL token holding the byte after the dot, and the lexer stops on that byte |
| Lexer.DelimiterToken | lexer/lexer.go:26-57 | each byte of the one-byte table (`+ - / * < > ; , ( ) { }`) is a token of its own kind holding that byte, and the lexer moves past it |
| Lexer.ScanUnknownByte | lexer/lexer.go:80-82 | any other byte is an ILLEGAL one-byte token |
| Lexer.ScanKinds | lexer/lexer.go:17-83 | the scanner never produces STRING, `:`, `[` or `]` tokens |
| Lexer.LiteralNotLedByWhitespace | lexer/lexer.go:15 | no non-ILLEGAL literal starts with a blank |
| Lexer.DanglingDotBeforeBlank | lexer/lexer.go:68-75 | `1. ` scans to an ILLEGAL token whose literal is the blank |
| Lexer.KeywordToken | lexer/lexer_test.go:10 | `enchanted five` scans to LET `enchanted` and stops before the blank |
| Lexer.FloatToken | lexer/lexer_test.go:34 | ` 5.5;` scans to FLOAT `5.5` |
| Lexer.FirstLine | lexer/lexer_test.go:23 | `10 == 10;` scans to INT, EQ, INT, SEMICOLON |
| Lexer.SecondLine | lexer/lexer_test.go:24 | `10 != 9;` scans to INT, NOT_EQ, INT, SEMICOLON, then EOF |
| Object.TypeTagsDistinct | object/object.go:14-20 | two values have the same type tag exactly when they are the same kind of object |
| Object.InspectInteger | object/object.go:27 | an integer's `Inspect` is decimal text that parses back to the integer |
| Object.InspectBoolAndNull | object/object.go:40-47 | booleans inspect as `true`/`false` and null as `null` |
| Object.Wrapped | object/object.go:50-54 | wrapping a value in return values gives a return value |
| Object.InspectReturnVal | object/object.go:53-54 | a return value inspects as the value it wraps, at any nesting depth, and its tag is `RETURN_VAL` |
| Builtins.CallBuiltin | evaluator/builtins.go:8-110 | exactly the six names `len`, `debut`, `ttpd`, `rest`, `billboard`, `SpeakNow` are built-ins |
| Builtins.ArityCheckedFirst | evaluator/builtins.go:11-14 | a wrong argument count yields the arity error, whatever the arguments |
| Builtins.LenCounts | evaluator/builtins.go:9-24 | `len` gives the element count of an array, the byte count of a string, and a type error otherwise |
| Builtins.NonArrayRejected | evaluator/builtins.go:33-36 | `debut`, `ttpd`, `rest` and `billboard` reject a non-array first argument, the last two with a message naming `ttpd` |
| Builtins.EmptyArray | evaluator/builtins.go:41 | `debut`, `ttpd` and `rest` of an empty array are null |
| Builtins.DebutAndRestSplit | evaluator/builtins.go:27-83 | for a non-empty array, `debut` followed by `rest` is the array again |
| Builtins.BillboardThenTtpd | evaluator/builtins.go:84-101 | `billboard` keeps the array as a prefix, `ttpd` of the result is the pushed value, and its length is one more |
| Builtins.RestBillboardCommute | evaluator/builtins.go:64-101 | `rest` and `billboard` commute on non-empty arrays |
| Emit.Builder.WriteLine | compiler/compiler.go:415-417 | appends exactly one line |
| Emit.Builder.WriteLines | compiler/compiler.go:409-413 | appends the lines in order |
| Emit.Text | compiler/compiler.go:415-417 | non-empty output text ends with a newline |
| Emit.TextAppend | compiler/compiler.go:409-417 | the text of two consecutive writes is the concatenation of their texts |
| Mips.RenderAllAppend | compiler/mips_gen.go:141-143 | rendering instructions distributes over concatenation |
| Mips.ExecAppend | evaluator/compiler.go:30-70 | running two instruction sequences one after the other equals running their concatenation |
| Mips.OpInstrsMeaning | evaluator/compiler.go:49-58 | the emitted `add`/`sub`/`mul`/`div` put the operation's result in `$t0` and change nothing else |
| Mips.InfixStackCode | evaluator/compiler.go:43-58 | code that saves the left result on the stack computes `left op right` for any operand code |
| EvalCodegen.CodeIndented | evaluator/compiler.go:30-70 | every line `generateMIPSCode` emits is indented by four spaces |
| EvalCodegen.CodeAllIndented | evaluator/compiler.go:32-35 | the same for a statement list |
| EvalCodegen.CodeAllAppend | evaluator/compiler.go:32-35 | code for a statement list is the code of its parts in order |
| EvalCodegen.GenerateMIPSCode | evaluator/compiler.go:30-70 | appends exactly `Code(node)` to the builder |
| EvalCodegen.GenerateInfixCode | evaluator/compiler.go:43-58 | appends the left operand's code, `move $t1, $t0`, the right operand's code, `move $t2, $t0` and the operator's line, in that order |
| EvalCodegen.GenerateStatements | evaluator/compiler.go:32-35 | appends the code of each statement in order |
| EvalCodegen.GenerateMIPS | evaluator/compiler.go:10-27 | the produced text is the header, the node's code and the exit syscall |
| EvalCodegen.GeneratedTextLayout | evaluator/compiler.go:10-27 | the program text starts with `.text`, `.globl main`, `main:` and ends with `li $v0, 10` and `syscall` |
| EvalCodegen.CodeIsRendering | evaluator/compiler.go:30-70 | the emitted text is the rendering of a MIPS instruction sequence |
| EvalCodegen.CodeAllIsRendering | evaluator/compiler.go:32-35 | the same for statement lists |
| EvalCodegen.NoInfixKeepsT1 | evaluator/compiler.go:40-64 | code for an operand without operators computes its value and leaves `$t1` alone |
| EvalCodegen.AsWrittenCorrectWhenRightShallow | evaluator/compiler.go:43-58 | when no right operand contains an operator, the as-written code leaves the expression's value in `$t0` |
| EvalCodegen.LeftValueStaysInT1 | evaluator/compiler.go:43-58 | after the code of an operation whose right operands are infix-free at every level, `$t1` still holds the value of its left operand |
| EvalCodegen.RightOperationClobbersLeft | evaluator/compiler.go:43-58 | when the right operand is itself an operation, the outer operator combines the right operand's left operand (left behind in `$t1`) with the right operand's value, not the left operand's value |
| EvalCodegen.RightNestedSumGivesSeven | evaluator/compiler.go:43-58 | `1+(2+3)` evaluates to 6 but the emitted code leaves 7 in `$t0` |
| EvalCodegen.FixedCodeCorrect | evaluator/compiler.go:43-58 | with the left operand saved on the stack, the code computes every expression's value |
| MipsGen.Precedence | compiler/mips_gen.go:105-114 | `*`,`/` bind at 3, `+`,`-` at 2, anything else at 1 |
| MipsGen.SaveRegisters | compiler/mips_gen.go:47-70 | the two save registers are distinct from each other and from `$t0` |
| MipsGen.VisitAllAppend | compiler/mips_gen.go:31-33 | code for a statement list is the code of its parts in order |
| MipsGen.PrintEachAppend | compiler/mips_gen.go:119-122 | code for `SpeakNow` arguments is the code of each argument in order |
| MipsGen.MIPSGenerator.constructor | compiler/mips_gen.go:15-20 | a new generator has no code and zero counters |
| MipsGen.MIPSGenerator.Generate | compiler/mips_gen.go:22-25 | returns the text of the buffer after visiting the node |
| MipsGen.MIPSGenerator.Emit | compiler/mips_gen.go:141-143 | appends one line |
| MipsGen.MIPSGenerator.EmitLines | compiler/mips_gen.go:141-143 | appends the lines in order |
| MipsGen.MIPSGenerator.EmitLoadImmediate | compiler/mips_gen.go:145-147 | appends `li reg, value` |
| MipsGen.MIPSGenerator.EmitHeader | compiler/mips_gen.go:128-134 | appends the data and text section header |
| MipsGen.MIPSGenerator.EmitFooter | compiler/mips_gen.go:136-139 | appends the exit syscall |
| MipsGen.MIPSGenerator.EmitPrintInt | compiler/mips_gen.go:149-156 | appends the print-integer and print-newline syscalls |
| MipsGen.MIPSGenerator.VisitNode | compiler/mips_gen.go:27-44 | appends exactly `Visit(node)` and leaves the counters unchanged |
| MipsGen.MIPSGenerator.VisitStatements | compiler/mips_gen.go:31-33 | appends the code of each statement in order |
| MipsGen.MIPSGenerator.VisitInfixExpression | compiler/mips_gen.go:46-85 | appends exactly `Visit(node)` for an infix node |
| MipsGen.MIPSGenerator.EmitOperation | compiler/mips_gen.go:55-83 | appends the operation lines for the chosen register pair |
| MipsGen.MIPSGenerator.PrintArgument | compiler/mips_gen.go:120-121 | appends one argument's code followed by the print-integer lines |
| MipsGen.MIPSGenerator.VisitCallExpression | compiler/mips_gen.go:116-126 | for a `SpeakNow` call appends each argument's code followed by a print; otherwise appends nothing |
| MipsGenMeaning.VisitIsRendering | compiler/mips_gen.go:27-85 | the generated code is the rendering of a MIPS instruction sequence |
| MipsGenMeaning.Frame | compiler/mips_gen.go:46-85 | an expression's code keeps the stack, keeps `$s0` when it never parenthesizes, and keeps `$t1` when it never uses the `$t` pair |
| MipsGenMeaning.AsWrittenCorrectWhenSafe | compiler/mips_gen.go:46-85 | when no right operand overwrites the register that holds the left result, the code computes the expression's value |
| MipsGenMeaning.LiteralRightOperandsSafe | compiler/mips_gen.go:87-103 | expressions whose right operands are all literals satisfy that condition |
| MipsGenMeaning.RightOperationClobbersLeft | compiler/mips_gen.go:46-103 | when neither a node nor its right operand (an operation) is parenthesized, the right operand's own `move $t1, $t0` overwrites the saved left value, and the node combines the right operand's left operand with the right operand's value |
| MipsGenMeaning.ProductSumGivesFifteen | compiler/mips_gen.go:46-103 | `1*2+3*4` is not parenthesized, evaluates to 14, and the emitted code leaves 15 in `$t0` |
| MipsGenMeaning.FixedCorrect | compiler/mips_gen.go:46-85 | with the left operand saved on the stack, the code computes every supported expression's value |
| MipsGenMeaning.ParenthesizedIffLooserLeft | compiler/mips_gen.go:87-103 | with literal right operands, the `$s` pair is used exactly when some left operand binds more loosely than its parent |
| MipsGenMeaning.RightNestedSumGivesSix | compiler/mips_gen.go:96-100 | `1+(2+3)` takes the `$s` path and gives 6 |
| MipsGenMeaning.OccurrencesAppend | compiler/mips_gen.go:141-143 | counting a line in two code blocks adds the counts |
| MipsGenMeaning.ExpressionPrintsNothing | compiler/mips_gen.go:38-85 | an expression's code contains no print |
| MipsGenMeaning.OperationPrintsNothing | compiler/mips_gen.go:47-83 | save and operation lines contain no print |
| MipsGenMeaning.OnePrintPerStatement | compiler/mips_gen.go:35-37 | a list of expression statements prints exactly once per statement |
| Symbols.DefineIn | compiler/compiler.go:28-33 | defining gives the name the next address, advances the allocator by 4 and leaves other names alone |
| Symbols.LookupMeaning | compiler/compiler.go:35-41 | lookup fails exactly when no scope binds the name; otherwise it returns the binding of the innermost scope that has it |
| Symbols.InnermostWins | compiler/compiler.go:36-38 | a name in the current scope shadows outer ones |
| Symbols.OuterOnMiss | compiler/compiler.go:39-40 | scopes that do not bind the name are skipped |
| Symbols.SuccessiveAddresses | compiler/compiler.go:28-33 | defining distinct names in order gives them addresses 4 apart |
| Symbols.AllocatorAdvance | compiler/compiler.go:30-31 | n definitions advance the allocator by 4n |
| Symbols.NotRedefined | compiler/compiler.go:28-33 | names not redefined keep their symbols |
| Symbols.RedefinitionUsesNewSlot | compiler/compiler.go:28-33 | redefining a name gives it a fresh slot 4 bytes later and adds no new name |
| Symbols.SymbolTable.constructor | compiler/compiler.go:21-26 | a new table is empty with allocator 0 |
| Symbols.SymbolTable.Define | compiler/compiler.go:28-33 | the table is updated as `DefineIn` says and the new symbol is returned |
| Symbols.SymbolTable.SetAddress | compiler/compiler.go:446-449 | moving a parameter changes only that symbol's address |
| Symbols.SymbolTable.Resolve | compiler/compiler.go:35-41 | the result is the lookup along the chain of enclosing tables |
| Symbols.SymbolTable.NewEnclosedSymbolTable | compiler/compiler.go:43-47 | the new table is empty, allocates from 0, and resolves through a copy of this table's chain as it stands at the call |
| CodegenSpec.NextRegister | compiler/compiler.go:403-407 | the register stays in `$t0..$t7` and only the register counter changes |
| CodegenProps.NextLabelFresh | compiler/compiler.go:361-364 | the label handed out differs from `label_<j>` for every j up to the counter before the call, so it was never handed out before; `func_<n>` (compiler.go:424) and `float_true_<n>` (compiler.go:226-230) draw on the same counter but use its value before the increment and a different prefix, and `CodegenLabels.RunLabels` covers only the `label_` names |
| CodegenProps.SlotsRestoreSaved | compiler/compiler.go:435-461 | the i-th restore line of the epilogue is the i-th save line of the prologue with `sw` replaced by `lw`, so each `$t<i>` is reloaded from the slot it was saved to |
| Codegen.Generator.constructor | compiler/compiler.go:49-56 | the package globals start empty and at zero |
| Codegen.Generator.GetNextRegister | compiler/compiler.go:403-407 | as `NextRegister` |
| Codegen.Generator.GetNextIntRegister | compiler/compiler.go:349-353 | as `NextIntRegister` |
| Codegen.Generator.GetNextFloatRegister | compiler/compiler.go:355-359 | as `NextFloatRegister` |
| Codegen.Generator.GetNextLabel | compiler/compiler.go:361-364 | as `NextLabel` |
| Codegen.Generator.ResetRegisterAllocation | compiler/compiler.go:180-182 | only the register counter returns to 0 |
| Codegen.Generator.GenerateMIPS | compiler/compiler.go:58-81 | the text is that of `Run`, and the globals are left as `Run` leaves them |
| Codegen.Generator.GenerateProgram | compiler/compiler.go:83-102 | leaves exactly the state `GenProgram` computes |
| Codegen.Generator.GenerateNode | compiler/compiler.go:104-142 | leaves the state and returns the register and type `GenNode` computes |
| Codegen.Generator.GenerateBlockStatement | compiler/compiler.go:397-401 | as `GenStatements` |
| Codegen.Generator.GenerateLetStatement | compiler/compiler.go:144-158 | as `GenLet` |
| Codegen.Generator.GenerateVariable | compiler/compiler.go:160-178 | as `GenVariable` |
| Codegen.Generator.GenerateInfixExpression | compiler/compiler.go:184-195 | as `GenInfix` |
| Codegen.Generator.GenerateFloatInfixExpression | compiler/compiler.go:197-234 | as `GenFloatInfix` |
| Codegen.Generator.ConvertOperand | compiler/compiler.go:198-211 | as `FloatOperand` |
| Codegen.Generator.GenerateIntInfixExpression | compiler/compiler.go:236-265 | as `GenIntInfix` |
| Codegen.Generator.GenerateBoolInfixExpression | compiler/compiler.go:267-285 | as `GenBoolInfix` |
| Codegen.Generator.GenerateSpeakNow | compiler/compiler.go:287-328 | as `GenSpeakNow` |
| Codegen.Generator.GenerateIfExpression | compiler/compiler.go:366-395 | as `GenIf` |
| Codegen.Generator.GenerateBranch | compiler/compiler.go:376-389 | as `GenBranch` |
| Codegen.Generator.WriteFrameSlots | compiler/compiler.go:435-437 | appends the eight frame-slot lines |
| Codegen.Generator.GenerateFunction | compiler/compiler.go:419-474 | as `GenFunction`: the caller's table and function name are restored afterwards |
| Codegen.Generator.DefineParameters | compiler/compiler.go:446-449 | the new scope is `DefineParams` of the parameters |
| Codegen.Generator.GenerateFunctionCall | compiler/compiler.go:476-500 | as `GenFunctionCall`: returns its result, or sets `panicked` with the output written up to the panic when the callee is not a name |
| Codegen.Generator.PushArguments | compiler/compiler.go:482-486 | as `PushArgs`: the arguments, last first, each pushed by `PushArgument` |
| CodegenProps.GrowsTrans | compiler/compiler.go:409-417 | the growth relation (output only appended, counters never decrease, no symbol removed) is transitive |
| CodegenProps.WriteGrows | compiler/compiler.go:409-417 | writing lines only appends |
| CodegenProps.NodeGrows | compiler/compiler.go:104-142 | generating any node only appends output, never decreases a counter or removes a symbol, and keeps the register in range |
| CodegenProps.ProgramGrows | compiler/compiler.go:83-102 | the same for a program |
| CodegenProps.StatementsGrow | compiler/compiler.go:397-401 | the same for a block |
| CodegenProps.BranchGrows | compiler/compiler.go:376-389 | the same for an if branch |
| CodegenProps.InfixGrows | compiler/compiler.go:184-195 | the same for an infix expression |
| CodegenProps.OperationGrows | compiler/compiler.go:197-285 | the same for the three operation emitters |
| CodegenProps.FloatInfixGrows | compiler/compiler.go:197-234 | the same for float operations |
| CodegenProps.BoolInfixGrows | compiler/compiler.go:267-285 | the same for boolean operations |
| CodegenProps.IntInfixGrows | compiler/compiler.go:236-265 | the same for integer operations |
| CodegenProps.FloatOperandGrows | compiler/compiler.go:198-211 | the same for operand conversion |
| CodegenProps.FloatOperationGrows | compiler/compiler.go:213-233 | the same for the float operation lines |
| CodegenProps.IfGrows | compiler/compiler.go:366-395 | the same for if expressions |
| CodegenProps.SpeakNowGrows | compiler/compiler.go:287-328 | the same for `SpeakNow` |
| CodegenProps.LetGrows | compiler/compiler.go:144-158 | the same for let statements |
| CodegenProps.RegisterCounters | compiler/compiler.go:349-407 | `$t` registers cycle through 0..7 and wrap to 0; int and float counters return their old value and increase by one |
| CodegenProps.PushArgsGrows | compiler/compiler.go:481-486 | pushing the arguments only appends, at least two lines per argument, and keeps every counter and table monotone |
| CodegenProps.FunctionCallLayout | compiler/compiler.go:476-500 | a `SpeakNow` call is `generateSpeakNow`; another named call is the pushes, `jal <name>`, `addi $sp, $sp, 4k`, `move $tR, $v0` with R the next round-robin register, typed int; a callee that is not a name panics after the pushes |
| CodegenProps.LabelsDistinct | compiler/compiler.go:361-364 | labels taken at different counter values differ |
| CodegenProps.FirstLabel | compiler/compiler.go:361-364 | the first label is `label_1` |
| CodegenProps.Written | compiler/compiler.go:409-417 | after growth the old output is a prefix of the new |
| CodegenProps.IfLabels | compiler/compiler.go:366-395 | an if takes two fresh, different labels right after its condition, and returns register 0 with an empty type |
| CodegenProps.IfFromLabels | compiler/compiler.go:366-395 | the label counter after an if is at least the counter after taking both labels |
| CodegenProps.IfLayout | compiler/compiler.go:366-395 | the if code is: condition, `beq $tN, $zero, <else label>`, consequence, `j` to the end label, else label, alternative, end label |
| CodegenProps.InfixPath | compiler/compiler.go:184-195 | a float operand selects the float emitter, else a boolean operand the boolean emitter, else the integer emitter, with matching result types |
| CodegenProps.IntOperandConverted | compiler/compiler.go:198-211 | an int operand of a float operation is moved with `mtc1` and converted with `cvt.s.w` into a fresh float register |
| CodegenProps.FloatOperationSelection | compiler/compiler.go:213-347 | arithmetic gives one float instruction; comparisons give `c.<cond>.s` with a fresh `float_true_` label and a bool result; anything else emits nothing |
| CodegenProps.IntOperationSelection | compiler/compiler.go:236-265 | `/` uses `div`/`mflo`, other listed operators one instruction into the next round-robin `$t` (the current `currentRegister`, reused every eight allocations), unknown operators emit nothing and return register 0 |
| CodegenProps.BoolOperationSelection | compiler/compiler.go:267-285 | the result register is `$t<intRegisterCount>` (the count grows by one, the round-robin register is untouched); `&&` emits exactly `and R, L, Rt`, `||` exactly `or R, L, Rt`, `==` exactly `xor R, L, Rt` then `sltiu R, R, 1`, `!=` exactly `xor R, L, Rt` then `sltu R, $zero, R`; any other operator emits nothing and reports register 0; the result is always bool |
| CodegenProps.BoolResultRegisterUnbounded | compiler/compiler.go:58-81 | compiling `true && false` emits `li $t0, 1`, `li $t1, 0`, `and $t<k>, $t0, $t1` for the count k left by earlier runs, so once k reaches 8 the result lands outside `$t0..$t7` |
| CodegenProps.NoFloatNode | compiler/compiler.go:104-142 | no node generates a float-typed result, and no float-typed symbol appears |
| CodegenProps.NoFloatProgram | compiler/compiler.go:83-102 | the same for programs |
| CodegenProps.NoFloatStatements | compiler/compiler.go:397-401 | the same for blocks |
| CodegenProps.NoFloatBranch | compiler/compiler.go:376-389 | the same for branches |
| CodegenProps.NoFloatIf | compiler/compiler.go:366-395 | the same for if expressions |
| CodegenProps.RunHasNoFloats | compiler/compiler.go:58-81 | a whole compilation never defines a float symbol, so the float emitter is unreachable |
| CodegenProps.SpeakNowRules | compiler/compiler.go:287-328 | `SpeakNow` needs exactly one argument; ints print with syscall 1, bools print `true`/`false` text through two fresh labels, other types print nothing |
| CodegenProps.LetStorage | compiler/compiler.go:144-158 | a let binds the name at the next address; globals get a `.data` word and `sw` by name, locals `sw` at `-addr($fp)` |
| CodegenProps.VariableLoad | compiler/compiler.go:160-178 | unknown names give register 0 with an empty type; known names load by label for globals, at `addr($fp)` for positive addresses and `-addr($fp)` otherwise |
| CodegenProps.LocalReadsOtherSlot | compiler/compiler.go:144-178 | inside a function, when the slot's address is positive, a local stored at `-addr($fp)` is read back from `addr($fp)`, a different word |
| CodegenProps.ParameterAddresses | compiler/compiler.go:446-449 | parameter i is an int at address 4*(i+2) and the allocator ends at 4 times the parameter count |
| CodegenProps.FunctionScope | compiler/compiler.go:419-474 | a function body runs in a table enclosing the caller's, named `func_<label count>`, with its parameters resolvable; afterwards the caller's table and name are restored |
| CodegenProps.RunResets | compiler/compiler.go:58-81 | a compilation depends only on the int and float counters left over from earlier runs, starts with the data header, and never decreases those counters |
| Codegen.Generator.PushArgument | compiler/compiler.go:482-485 | as `PushArg`: one argument generated, then its register stored at `0($sp)` and the stack pointer moved down 4 |
| CodegenProps.PushArgGrows | compiler/compiler.go:482-485 | one push only appends, at least two lines |
| CodegenLabels.LabelLineNumber | compiler/compiler.go:361-364 | the line `label_<k>:` reads back as the definition of label k |
| CodegenLabels.NodeLabels | compiler/compiler.go:104-142 | every `label_N:` line any generator writes defines a label that generator took itself, and none twice |
| CodegenLabels.ProgramLabels | compiler/compiler.go:83-102 | the same for a program |
| CodegenLabels.StatementsLabels | compiler/compiler.go:397-401 | the same for a block |
| CodegenLabels.BranchLabels | compiler/compiler.go:376-389 | the same for an if branch |
| CodegenLabels.InfixLabels | compiler/compiler.go:184-195 | the same for an infix expression |
| CodegenLabels.OperationLabels | compiler/compiler.go:197-285 | the three operation emitters define no `label_N` (the float comparison's own label is `float_true_N`) |
| CodegenLabels.SpeakNowLabels | compiler/compiler.go:287-328 | `SpeakNow` of a bool defines its two labels, taken after the argument's code, once each |
| CodegenLabels.BoolPrintLabels | compiler/compiler.go:303-314 | the bool print defines exactly its false label and its end label |
| CodegenLabels.LetLabels | compiler/compiler.go:144-158 | a let defines no label beyond its value's |
| CodegenLabels.VariableLabels | compiler/compiler.go:160-178 | a variable load defines no label |
| CodegenLabels.IfLabelLines | compiler/compiler.go:366-395 | an if defines its else and end labels once each, and no branch defines either of them again |
| CodegenLabels.IfTail | compiler/compiler.go:376-394 | after the condition, the else label, the end label and the labels of both branches are pairwise distinct |
| CodegenLabels.RunLabels | compiler/compiler.go:58-81 | a whole compilation defines each label at most once, and only `label_1` … `label_N` with N the labels it took |

## Left out

- The file write in `evaluator/compiler.go` (lines 22-25) and its error result are left out; `EvalCodegen.GenerateMIPS` returns the text.
- Console printing by the `SpeakNow` built-in (`fmt.Println`) is I/O; `Builtins.CallBuiltin` gives only its result, null.
- Floating point: `Object.Float` holds a Dafny `real`, so `float64` rounding is not modelled, and `Inspect` of a float (`%f`) returns `None`. The float emitter of `compiler/compiler.go` is modelled on register numbers and text only. It is also proved unreachable (`CodegenProps.RunHasNoFloats`).
- The `String`, `Array`, `Builtin` and `Error` object types and `createError` live in source files that are not part of this model. Their fields are given the obvious shapes, and the `Inspect` of strings, arrays, built-ins and errors returns `None`.
- Integer width: `int64` values and `len` results are unbounded integers, so 64-bit overflow is not modelled. The registers of `Mips.Machine` are unbounded too: a MIPS32 register wraps at 2^32 and `li` takes a 32-bit immediate, so every lemma about `Mips.Exec` (the `MipsGenMeaning` lemmas and `EvalCodegen.FixedCodeCorrect`, `EvalCodegen.AsWrittenCorrectWhenRightShallow`, `EvalCodegen.RightOperationClobbersLeft`, `EvalCodegen.RightNestedSumGivesSeven`) states what the code computes only for programs whose values fit in 32 bits.
- The parser, the tree-walking evaluator, the REPL, `repl/trees.go` and `compiler/compiler_builins.go` are not part of this model. The AST is taken as given, with only the node kinds the generators inspect.
- `Lexer.Lexer`: input is bytes, so UTF-8 decoding is not modelled; the source also works byte by byte.
- `Codegen.Generator`: the Go globals are fields of one object. Nothing else can reach them, so re-entrancy and concurrency are not modelled.
- `Codegen.Generator.GenerateMIPS`: the `strings.Builder` is created and discarded inside the call, as in the source, so the model returns only its text.
- `GenFunction` and `GenFunctionCall` are modelled and proved, but `generateNode` never reaches them: it has no case for function literals, handles only calls whose callee is the name `SpeakNow`, and writes nothing for any other call. Their properties therefore hold only as stated about the functions themselves.
- Symbols.SymbolTable.NewEnclosedSymbolTable: Go keeps a pointer to the outer table, the model a copy of its chain (`parent`). A `Define` in the outer table after the call would be visible through the Go pointer but not through the copy. The generator never does that: `generateFunction` switches to the new table before its first `Define` and restores the outer one only after the body (compiler/compiler.go:441-470), so the copy and the pointer resolve every name the same way.
- The diagnostics printed with `fmt.Printf`/`fmt.Println` in compiler/compiler.go (lines 163, 261, 281, 289 and 316) are console output and are dropped; only the code generated on those paths is modelled.
- `MipsGen.MIPSGenerator`: the fields `labelCount` and `stackOffset` are kept but never change, as in the source.

## Findings

| source | as written | input that shows it | evidently intended | confidence | as-written member | corrected member |
|---|---|---|---|---|---|---|
| evaluator/compiler.go:43-58 | the left result is kept in `$t1`, which the right operand's own code overwrites (`EvalCodegen.RightOperationClobbersLeft`) | `1+(2+3)` gives 7 instead of 6 | each operator combines its own left and right values | not executed | EvalCodegen.RightNestedSumGivesSeven | EvalCodegen.FixedCodeCorrect |
| compiler/mips_gen.go:46-103 | without parentheses the left result is kept in `$t1`, which a right operand that is itself an operation overwrites (`MipsGenMeaning.RightOperationClobbersLeft`) | `1*2+3*4` gives 15 instead of 14 | the generated code computes the expression's value | not executed | MipsGenMeaning.ProductSumGivesFifteen | MipsGenMeaning.FixedCorrect |

Other behaviour of the source is kept as written and proved:

- When a local's address is positive, `generateVariable` reads it from `addr($fp)`, but `generateLetStatement` stores it at `-addr($fp)` (`CodegenProps.LocalReadsOtherSlot`). At address 0 both use the same word.
- The error messages of `rest` and `billboard` name `ttpd`, and the arity message of `billboard` says 1 argument where it needs 2 (`Builtins.NonArrayRejected`, `Builtins.ArityCheckedFirst`).
- An if expression returns register 0 with an empty type (`CodegenProps.IfLabels`).
- The int and float register counters are never reset between compilations (`CodegenProps.RunResets`).
- Bool and float-comparison results are written to `$t<intRegisterCount>` (compiler/compiler.go:224, 268), a register number that only grows across a run and across runs, so it leaves `$t0..$t7` once eight such results have been taken (`CodegenProps.BoolResultRegisterUnbounded`).
