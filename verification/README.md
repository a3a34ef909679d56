# Verification of KDAL

KDAL is a Linux kernel framework with a small driver description language. This project
models both halves in Dafny and proves properties of them:

- the language front end: lexer, parser, expression emitter, semantic pass and dry-run
  interpreter;
- the kernel runtime: event log, byte ring, example UART driver, control device, resource
  demand report, registry, and module start-up with unwinding.

The model keeps the form of the C code. State that the code updates is a field of a class
(`Lexer.Lexer`, `Parser.Parser`, `Arena.Arena`, `Codegen.Writer`, `Simulate.Simulator`,
`Sema.Checker`, `EventLog.Log`, `Ring.Ring`, `Uart.Device`, `CharDev.Control`,
`Demand.Printer`, `Registry.List`, `CoreInit.Kernel`), loops are loops, and each method is
proved against a specification function. The theorems are about those functions and hold
for every input, every tree or every run.

Run `dafny verify dfyconfig.toml`.

## Layout

| files | subject |
|---|---|
| `Wrappers`, `Seqs` | shared definitions |
| `Tokens`, `Numerals`, `LexSpec`, `Lexer`, `LexProofs`, `Literals` | the lexer; lossless and canonical; what each kind of text lexes to |
| `Ast`, `ParseSpec`, `Grammar`, `Printing` | expressions; precedence climbing is sound and complete |
| `StmtSpec`, `StmtGrammar`, `StmtProofs`, `Parser`, `Bodies` | statements; accepted exactly as the statement grammar spells them |
| `DeclSpec`, `Declarations`, `DeclProofs` | declarations, and what a parsed file says about its tokens |
| `TokenText`, `DeclGrammar`, `StmtText`, `DeclReads` | every form of statement, declaration and file in tokens, and that it is read as what it says |
| `IfMeaning`, `ProgramMeaning` | what an if means once its bodies are spliced, and which programs run as they mean |
| `Pipeline`, `DeviceText`, `DriverText` | lexer, parser and semantic pass, one after the other; writing devices and drivers as text and reading them back |
| `Codegen`, `RoundTrip` | the expression emitter and its round trip |
| `Simulate`, `Words`, `SimulateProofs` | the interpreter, its word operators bit by bit, and its refinement of a map semantics |
| `Sema`, `SemaProofs` | the semantic pass accepts exactly the clean files |
| `Arena`, `Siblings` | the block allocator and the linked sibling lists of syntax nodes |
| `EventLog`, `Ring`, `Uart`, `CharDev` | the runtime data path |
| `Json`, `Demand`, `DemandProofs`, `DemandReader` | the demand report, read back as JSON (RFC 8259) |
| `Registry`, `CoreInit`, `StartUp` | intrusive lists, start-up and rollback, and when start-up succeeds |

## What the code does not do

Some properties one would expect are false of the code. The code is kept as it is; for each
the exact condition is proved for all inputs, and an input that fails is exhibited:

- A for loop in the simulator ends for every pair of bounds but one, lo = 2^64 - 10001 with
  hi = 2^64 - 1 (`Simulate.LoopEndsIff`): `for i in -10001 .. -1 { }` never ends
  (`SimulateProofs.EndlessProgram`).
- A register write in the simulator is lost without notice unless the name has a slot, or a
  slot is free and the name is short, or the value is zero
  (`SimulateProofs.WriteTakesEffectIff`): the last of 65 short names is
  (`SimulateProofs.LateWriteIsLost`). One to a long name alters the name its first 63
  characters make, unless that or the name has a slot, or none is free, or the value is zero
  (`SimulateProofs.WriteLeavesOthersIff`): a single write to a name of 64 characters sets the
  shorter name and leaves its own at zero (`SimulateProofs.LongWriteIsLost`).
- The simulator knows a dotted path by its last component only: two paths share a register
  exactly when they agree there (`SimulateProofs.PathsShareIff`), so UART.CR.en and UART.DR.en
  do, while generated code tells apart paths that differ anywhere behind the first component
  (`Codegen.EmitPathSameIff`).
- A let binds nothing in the simulator: behind it every name reads as before, so its own name
  has the value given exactly when it had it already (`SimulateProofs.LetBindsNothing`);
  `let x = 1; y = x;` leaves y at 0 (`SimulateProofs.LetIsLost`). Nor is the variable of a for
  set: its name makes no difference (`SimulateProofs.LoopVariableIsIgnored`).
- The symbol table drops what does not fit in 256 entries, and a dotted path is looked up by
  its last component first. A device without errors protects its read-only registers and
  their bitfield members from dotted paths exactly when none of these registers is declared
  past the end of the table and none of their members shares its name with something in the
  table other than a read-only register (`SemaProofs.ReadOnlyIsSafeIff`). A write to the 257th
  of 257 registers is accepted (`SemaProofs.FullTableHidesReadOnly`), and so is one to
  `UART.FR.tx_empty`, a member of the read-only `FR` of lang/stdlib/uart.kdh, which also
  declares a signal of that name (`SemaProofs.SignalHidesMember`).
- A write by a dotted path that ends in a read-only register is refused exactly when the
  register is in the table or the path's second component is a read-only register there
  (`SemaProofs.WriteRefusedIff`); one by a path that enters the register, exactly when its last
  component is a read-only register in the table or, with the register in the table, is not in
  it at all (`SemaProofs.MemberWriteRefusedIff`). Bare identifiers are not looked at:
  `write(STATUS, 1)` is accepted whatever STATUS is (`DeclProofs.BareWriteEscapes`), so with
  them counted only a device with no read-only register at all is safe
  (`SemaProofs.AcceptanceProtectsIff`).
- Of the reads in a driver only those in writes, assignments and the even children of an if
  are checked (`SemaProofs.UnreadStatementsPass`, `SemaProofs.ForBoundsPass`,
  `SemaProofs.ConditionsAreEven`, `SemaProofs.OddConditionsPass`).
- The compiler runs the semantic pass on files that hold a device or a driver, never both, so
  the pass never refuses a text (`Pipeline.CompilesIff`).
- A read that cannot copy to the caller loses the bytes it took from the ring
  (`Uart.DropsIff`, `Uart.DropHappens`).
- The page count of a region is right exactly while the region touches fewer than 2^52 pages
  (`Demand.PagesExactIff`); base 5000 with size 2^64 - 1 touches 2^52 + 1 and is reported as
  one page (`Demand.PagesCanBeWrong`).
- A start-up that fails in a device-tree scan which ran out of memory after a node it could
  add leaves that node's device registered; every other failure is undone completely
  (`CoreInit.FailedInitRollsBackIff`, `CoreInit.RollbackCanFail`).
- The arena rounds with a 32-bit mask, so exactly the requests with size + 7 >= 2^32 get a
  region smaller than asked for (`Arena.RoundCoversIff`, `Arena.RoundFallsShort`).
- The parser appends every body of an if to one child list. A true condition also runs all
  later bodies, an else never runs when the condition fails, and an elif condition counts
  only behind an even number of nodes (`IfMeaning.IfRuns`, `IfMeaning.ElseRuns`). An if keeps
  its meaning for every condition and first body, whatever its arms hold, exactly when it has
  no elif and no else (`IfMeaning.ArmsKeepIff`); one with an else does exactly when the else
  body does nothing (`IfMeaning.KeepsIff`, `IfMeaning.ElseHarmlessIff`), and
  `if (1) {} else { x = 1; }` does not (`IfMeaning.ElseAndElifLose`).
- A return inside the body of an if or a for ends only that body in the simulator, where it
  should end the handler. A statement runs as its structure says, before every continuation
  that does and whatever its conditions, bounds and arms hold, exactly when it is a return or
  has no elif, no else and no return inside a body, at any depth
  (`ProgramMeaning.StatementKeepsIff`); a run of a program without elif and else can differ
  only if it should return (`ProgramMeaning.BareProgramsKeepMeaning`), and
  `if (1) { return; } x = 1;` stores 1 (`ProgramMeaning.ReturnIsLost`).

## Model

| member | source | states |
|---|---|---|
| `Tokens.ClassifyIdent` | compiler/lexer.c:181-189 | the linear search finds a word exactly when it is one of the table's keywords; every other word is an identifier |
| `LexSpec.Next` | compiler/lexer.c:285-443 | one turn of the lexer consumes at least one and at most all remaining characters, and a token's text is a prefix of them, never EOF |
| `Lexer.Lexer.Advance` | compiler/lexer.c:122-133 | line and column stay the newline count and the distance from the last newline |
| `Lexer.Lexer.SkipBlockComment` | compiler/lexer.c:159-173 | ends after the first closing mark, or at the end of the text with a diagnostic |
| `Lexer.Lexer.LexIdent` | compiler/lexer.c:191-204 | emits the longest run of identifier characters, classified, at its place |
| `Lexer.Lexer.LexNumber` | compiler/lexer.c:206-244 | emits the longest decimal, hexadecimal or binary literal, with its value saturated to 64 bits where it has digits |
| `Lexer.Lexer.LexString` | compiler/lexer.c:246-268 | emits the whole literal with its quotes; without a closing quote consumes the line, reports and emits nothing |
| `Lexer.Lexer.Lex` | compiler/lexer.c:272-448 | the token array is exactly the specified tokens of the source, with their offsets, lines and columns |
| `Lexer.KdalLex` | compiler/lexer.c:272-448 | tokens and diagnostic flag of a whole source |
| `LexProofs.LexerIsLossless` | compiler/lexer.c:122-179 | without a diagnostic the tokens are in order, disjoint and inside the source, end in one EOF, only whitespace and comments lie between them, and line and column are the newline count and the distance from the last newline |
| `LexProofs.TokensAreLexemes` | compiler/lexer.c:285-443 | tokens without their positions do not depend on where the text starts |
| `LexProofs.Relex` | compiler/lexer.c:181-268 | the text of any token, followed by a space or the end, lexes to that token |
| `LexProofs.LexingIsCanonical` | compiler/lexer.c:285-443 | for every error-free source, lexing the token texts joined by single spaces gives the same kinds and texts, and the same values for literals that have digits behind their prefix |
| `Literals.HexLiteral` | compiler/lexer.c:206-244 | `0x` or `0X`, any leading zeros and the base-16 numeral of n in letters of either case is one hexadecimal token worth n, or 2^63 - 1 from 2^63 on, whatever follows that does not extend a word |
| `Literals.BinaryLiteral` | compiler/lexer.c:206-244 | the same for `0b` or `0B` and the base-two numeral of n |
| `Literals.DecimalLiteral` | compiler/lexer.c:206-244 | the same for the base-ten numeral of n |
| `Literals.Keyword` | compiler/lexer.c:27-91 | each of the keywords is the token of that keyword, `true` and `false` apart |
| `Literals.Alphabet` | compiler/lexer.c:181-204 | the characters an identifier starts with and goes on with are exactly the letters and `_`, and those and the digits; hex digits are 0-9, a-f and A-F |
| `Literals.Truth` | compiler/lexer.c:27-91 | `true` is worth 1 and `false` 0 |
| `Literals.Name` | compiler/lexer.c:191-204 | any other word is an identifier |
| `Literals.Punctuation` | compiler/lexer.c:285-443 | each of the 34 marks, before a space or the end, is its token |
| `Literals.StringLiteral` | compiler/lexer.c:246-268 | a string whose quotes and newlines are all behind backslashes ends at its closing quote; at a newline it is reported and yields nothing; at the end of the text it is accepted |
| `Literals.EmittedString` | compiler/codegen.c:86-150 | a string is emitted as the literal it came from |
| `Literals.Whitespace` | compiler/lexer.c:285-443 | each of the six whitespace characters is skipped |
| `Literals.LineComment` | compiler/lexer.c:175-179 | a line comment is skipped up to its newline or the end |
| `Literals.BlockComment` | compiler/lexer.c:159-173 | a block comment is skipped up to its first closing mark; without one the rest of the text is, with a report |
| `Literals.OtherCharacter` | compiler/lexer.c:285-443 | any other character is reported and passed over |
| `ParseSpec.Primary` | compiler/parser.c:177-287 | a primary always consumes a token unless at the end, stays inside the tokens, and an error-free one is a complete tree |
| `ParseSpec.Climb` | compiler/parser.c:369-404 | the position never goes back nor leaves the tokens, a tree means progress, and no tree means a report |
| `Parser.Parser.Advance` | compiler/parser.c:138-142 | never passes the last token |
| `Parser.Parser.ExpectTok` | compiler/parser.c:144-156 | skips a token of the kind, or reports and stays |
| `Parser.Parser.ParsePath` | compiler/parser.c:177-287 | collects dotted names up to four components |
| `Parser.Parser.ParsePrimary` | compiler/parser.c:177-287 | value, position and error flag of the specification of a primary |
| `Parser.Parser.ParseExprPrec` | compiler/parser.c:369-399 | value, position and error flag of precedence climbing; terminates on every token array |
| `Parser.Parser.ParseLogArgs` | compiler/parser.c:556-572 | the argument loop and its closing tokens |
| `Parser.Parser.ParseIf` | compiler/parser.c:574-611 | the if, elif and else chain with every body appended to one child list |
| `Parser.Parser.ParseFor` | compiler/parser.c:613-641 | the for statement, its bounds and its body |
| `Parser.Parser.ParseStatement` | compiler/parser.c:665-691 | value, position and error flag of every statement form |
| `Parser.Parser.ParseStatementList` | compiler/parser.c:408-419 | the list loop, with its error recovery, ends before a closing brace or EOF; terminates on every token array |
| `Grammar.PrimarySound` | compiler/parser.c:177-287 | an error-free primary consumed exactly the yield of a proper tree and returned its syntax tree |
| `Grammar.ClimbSound` | compiler/parser.c:369-399 | an error-free parse consumed exactly the yield of a proper tree (left child of a level-p node at level >= p, right child above p), returned its syntax tree and stopped before a token that is no operator of the level |
| `Grammar.OperatorsSound` | compiler/parser.c:374-397 | the operator loop extends a parsed left operand to such a tree |
| `Grammar.PrimaryComplete` | compiler/parser.c:177-287 | every proper primary is parsed back, whatever follows it but a dot |
| `Grammar.ClimbSpine` | compiler/parser.c:369-399 | climbing over a proper tree reaches the loop head with the whole tree as left operand |
| `Grammar.ClimbComplete` | compiler/parser.c:369-399 | every proper tree followed by neither an operator of the level nor a dot is parsed back to itself, all of it |
| `Grammar.GrammarIsUnambiguous` | compiler/parser.c:289-323 | two proper trees with the same tokens have the same syntax tree |
| `Printing.PrintIsProper` | compiler/parser.c:289-323 | printing any tree with only the required parentheses gives a proper tree of it |
| `Printing.PrintThenParse` | compiler/parser.c:177-404 | that print is parsed back to the tree it came from |
| `Printing.PrintIsShortest` | compiler/parser.c:289-323 | no proper text of the same tree is shorter |
| `Printing.PrecedenceIsThatOfC` | compiler/parser.c:289-323 | every binary operator binds at the level its C counterpart has in sections 6.5.5 to 6.5.14 of ISO/IEC 9899:1999 |
| `StmtSpec.StatementList` | compiler/parser.c:408-419 | stays inside the tokens and stops before a closing brace or EOF |
| `StmtProofs.StatementComplete` | compiler/parser.c:421-691 | every well-formed statement spelled at a place is parsed there without error to its flattened node, consuming exactly its tokens |
| `StmtProofs.StatementSound` | compiler/parser.c:421-691 | every error-free statement parse consumed exactly the spelling of some statement |
| `StmtProofs.StatementListIff` | compiler/parser.c:408-419 | a list is parsed without error if and only if statements are spelled there up to a closing brace or EOF, and the nodes are then those statements flattened |
| `StmtText.StmSpelled` | compiler/parser.c:421-691 | a statement written out with the language's own words is spelled as the grammar has it, for every statement form |
| `Declarations.ParseAccess` | compiler/parser.c:704-722 | the access the qualifier token names, read-write where there is none; exactly that token is consumed |
| `Declarations.ParseBitfieldMembers` | compiler/parser.c:725-761 | the members, with their bit ranges, and the cursor of the specification; terminates on every token array |
| `Declarations.ParseRegisterDecl` | compiler/parser.c:764-851 | name, access, width, bitfield flag and members, and cursor and error flag, in both forms |
| `Declarations.ParseRegisterBlock` | compiler/parser.c:1032-1052 | the registers of the block in order, skipping what declares nothing |
| `Declarations.ParseSignalDecl` | compiler/parser.c:854-928 | cursor and error flag of the specification for every direction and trigger |
| `Declarations.ParseCapabilityDecl` | compiler/parser.c:931-951 | cursor and error flag of the specification in both forms |
| `Declarations.ParsePowerState` | compiler/parser.c:962-980 | cursor and error flag of the specification in both forms |
| `Declarations.ParseConfigField` | compiler/parser.c:983-1010 | cursor and error flag of the specification, with optional default and range |
| `Declarations.ParseDeviceBody` | compiler/parser.c:1013-1135 | the device and cursor of the specification; terminates before a closing brace or EOF |
| `Declarations.ParseHandler` | compiler/parser.c:1305-1345 | the body and cursor of the specification |
| `Declarations.ParseDriver` | compiler/parser.c:1256-1358 | the driver and cursor of the specification; terminates on every token array |
| `Declarations.KdalParse` | compiler/parser.c:1139-1362 | no file if and only if anything was reported; otherwise the file of the specification |
| `DeclSpec.FileAt` | compiler/parser.c:1139-1362 | stays inside the tokens and never holds both a device and a driver |
| `DeclProofs.RegistersAreDeclared` | compiler/parser.c:764-851 | the registers of a block are its declarations in order, at increasing places, each with the name, access, width and members the tokens at its own place give |
| `DeclProofs.LastBlockWins` | compiler/parser.c:1032-1052 | the registers of a device are those of its last register block, none if it has none |
| `DeclProofs.FileRegistersAre` | compiler/parser.c:1238-1255 | the registers of the device of a file are exactly the declarations of its last register block, in order |
| `DeclProofs.DriverIsItsParts` | compiler/parser.c:1280-1356 | probe and remove are the bodies behind the last such keyword, the handlers those of all `on` parts in order |
| `DeclProofs.BracesAreSpelled` | compiler/parser.c:1284-1288 | braces parsed without an error hold exactly the statements spelled between them, and the cursor ends behind the closing one |
| `DeclProofs.NextIsFirst` | compiler/parser.c:1336-1340 | the arguments of a handler end at the first closing parenthesis |
| `DeclProofs.FileDriverIs` | compiler/parser.c:1256-1358 | the driver of a file is its parts, and without an error each of its bodies is spelled at a part of its own, right behind its keyword or its parentheses |
| `DeclProofs.ParsedDriverIsShaped` | compiler/parser.c:574-641 | every body of a driver parsed without an error has the child-list shape the semantic pass relies on |
| `DeclProofs.AcceptedDriverSparesReadOnly` | compiler/sema.c:325-363 | a device and a driver parsed from tokens and accepted together: no dotted path written in a body of the driver, at any depth, ends in one of the first 256 registers of the device's last register block whose declaration carries `ro`; one that enters such a register ends in a name the table holds as something else |
| `DeclProofs.BareDriverParses` | compiler/parser.c:457-472 | `driver d { probe { write(NAME, 1); } }` is parsed without an error, to a write whose target is the bare identifier |
| `DeclProofs.BareWriteEscapes` | compiler/sema.c:73-130 | that driver is accepted with every device that has no errors, whatever the device declares the name as |
| `Pipeline.LexemesAreTerminated` | compiler/lexer.c:272-448 | every text lexes to tokens whose only EOF is the last, as the parser needs them |
| `Pipeline.Compile` | compiler/codegen.c:569-635 | lexing, parsing and checking a text stops at the first stage that reports, with the file of the specification otherwise |
| `Pipeline.SpacingDoesNotMatter` | compiler/codegen.c:569-635 | respacing the tokens of an error-free text changes nothing of the outcome, the values of literals that have no digits behind their prefix, or a second prefix there, apart |
| `DeclReads.ToIntIs` | compiler/parser.c:739-752 | a bit position is the 32-bit int that agrees with the literal modulo 2^32 |
| `DeclReads.RegisterReads` | compiler/parser.c:764-851 | a register spelled in any form (compact, scalar, bitfield; with or without offset, access, reset value; members without bits, with one bit or with a range) is read without an error as its name, width, access and members |
| `DeclReads.NamedReads` | compiler/parser.c:854-1010 | the same for signals with any direction and trigger, capabilities, power states and config fields with default and range |
| `DeclReads.PartReads` | compiler/parser.c:1013-1135 | each part of a device, in both notations, is read as what it changes about the device |
| `DeclReads.DriverPartReads` | compiler/parser.c:1280-1356 | each part of a driver is read as what it changes about the driver, its statements flattened |
| `DeclReads.FileReads` | compiler/parser.c:1139-1362 | a whole file in any form (version, imports, backend with options, device or driver) is read without an error as exactly what it declares |
| `DeviceText.FileSurvivesText` | compiler/codegen.c:569-635 | from text to file: such a file, its names and literals being ones that lex, compiles to exactly what it declares |
| `DeviceText.DeviceSurvivesText` | compiler/lexer.c:272-448 | any device whose names are identifiers, bit positions 32-bit ints and widths those of the types has a source text that compiles to exactly that device |
| `DeviceText.HasTextIff` | compiler/parser.c:1139-1255 | a device comes from some source text if and only if it is such a device |
| `DriverText.WrittenLexes` | compiler/lexer.c:285-443 | every token of an expression printed with the parentheses it needs lexes to itself |
| `DriverText.DriverSurvivesText` | compiler/codegen.c:569-635 | the source text of a driver, with probe, remove and handler bodies of any statements, compiles to exactly that driver |
| `Pipeline.CompilesIff` | compiler/parser.c:1238-1255 | a text compiles up to code generation if and only if it lexes and parses: the semantic pass never refuses a parsed file |
| `Bodies.ParsedBodyIsShaped` | compiler/parser.c:574-641 | every error-free statement list has that shape |
| `IfMeaning.ElseIsSpliced` | compiler/parser.c:588-607 | a then-else pair of non-empty bodies is the same tree as the two bodies in one (an empty body leaves a node that does nothing) |
| `IfMeaning.IfRuns` | tools/kdality/simulate.c:266-278 | what the simulator makes of any parsed if: a condition that holds runs its body and every later one; one that fails goes on to conditions behind an even number of nodes only |
| `IfMeaning.ElseRuns` | tools/kdality/simulate.c:266-278 | an else body runs after the first when the condition holds and never when it fails |
| `IfMeaning.ArmsKeepIff` | tools/kdality/simulate.c:266-278 | an if keeps its meaning for every condition and first body, whatever its elif and else arms hold, if and only if it has none |
| `IfMeaning.ElseHarmlessIff` | tools/kdality/simulate.c:266-278 | a bare if is harmless, and an else if and only if its body does nothing |
| `IfMeaning.ElseAndElifLose` | tools/kdality/simulate.c:266-278 | `if (1) {} else { x = 1; }` and the same with elif do not keep their meaning |
| `ProgramMeaning.BareProgramsKeepMeaning` | tools/kdality/simulate.c:209-301 | a program without elif and else, at any depth and loops included, runs as its structure says in every run that should not return; a return should end the handler wherever it stands |
| `ProgramMeaning.SimpleProgramsKeepMeaning` | tools/kdality/simulate.c:209-301 | a program without elif, else and returns inside bodies runs as its structure says, in every state |
| `ProgramMeaning.StatementKeepsIff` | tools/kdality/simulate.c:209-301 | a statement does so before every such program, whatever its conditions, bounds and arms hold, if and only if it is a return or has no elif, no else and no return inside a body, at any depth |
| `ProgramMeaning.ReturnIsLost` | tools/kdality/simulate.c:262-278 | `if (1) { return; } x = 1;` stores 1 although it should return first |
| `Codegen.Writer.EmitExpr` | compiler/codegen.c:86-150 | appends the specified text and keeps what was written before |
| `Codegen.FullIsProper` | compiler/codegen.c:86-150 | the fully parenthesised form is a proper tree with bools turned into 0 and 1 |
| `Codegen.EmitLexes` | compiler/codegen.c:86-150 | the emitted text lexes to the tokens of the fully parenthesised tree, whatever text follows that does not extend its last word |
| `Codegen.EmitLexParse` | compiler/codegen.c:86-150 | for every tree of non-negative 63-bit integers, bools, non-keyword identifiers and operators, the emitted text lexes without a diagnostic and parses back to the tree with bools turned into 0 and 1, consuming everything |
| `Codegen.EmitPathLexes` | compiler/codegen.c:108-116 | a path is emitted as the member access `ctx->regs` followed by each component behind the first |
| `Codegen.EmitReadLexes` | compiler/codegen.c:117-123 | a read is emitted as a call of kdal_reg_read with the context and that access |
| `Codegen.EmitPathSameIff` | compiler/codegen.c:108-116 | two paths are emitted alike if and only if they agree behind their first components |
| `RoundTrip.NormalEvaluatesTheSame` | tools/kdality/simulate.c:132-205 | turning bools into integers changes neither value nor effect |
| `RoundTrip.EmittedTextMeansTheSame` | compiler/codegen.c:86-150 | emit, lex, parse, evaluate gives the value and effect of the original tree in every register file |
| `Simulate.Simulator.RegRead` | tools/kdality/simulate.c:39-58 | the value under the name, or zero, entering the name if a slot is free |
| `Simulate.Simulator.RegWrite` | tools/kdality/simulate.c:60-81 | updates the slot of the name, or appends one if there is room |
| `Simulate.Simulator.EvalExpr` | tools/kdality/simulate.c:132-205 | 64-bit value and register file of the specification, for every tree |
| `Simulate.Simulator.ExecList` | tools/kdality/simulate.c:209-301 | final register file of the specification, or the report that the run never ends |
| `Simulate.LoopRuns` | tools/kdality/simulate.c:279-294 | the guard holds before exactly the stated iterations, with 64-bit wrap of the counter and of the limit |
| `Simulate.LoopEndsIff` | tools/kdality/simulate.c:279-294 | a loop ends if and only if its bounds are not the one endless pair |
| `Simulate.LoopCount` | tools/kdality/simulate.c:279-294 | min(hi - lo + 1, 10001) iterations away from the wrap |
| `SimulateProofs.EndlessProgram` | tools/kdality/simulate.c:279-294 | `for i in -10001 .. -1 { }` never ends, in any register file |
| `Words.BitsOfLogic` | tools/kdality/simulate.c:168-173 | bitwise and, or and exclusive or work on each of the 64 bits by itself |
| `Words.BitsOfInv` | tools/kdality/simulate.c:200-201 | complement turns every bit over |
| `Words.BitsOfShl` | tools/kdality/simulate.c:164-165 | a left shift below 64 moves every bit up, fills with zeros and drops what leaves the word |
| `Words.BitsOfShr` | tools/kdality/simulate.c:166-167 | a right shift below 64 moves every bit down and fills with zeros |
| `Words.FarShifts` | tools/kdality/simulate.c:164-167 | a shift by 64 or more, which C leaves open, is the one given from outside, in both directions |
| `Words.BitsDecide` | tools/kdality/simulate.c:132-205 | two words with the same bits are equal, so the four lemmas above fix the results |
| `Words.ArithmeticWraps` | tools/kdality/simulate.c:152-205 | sum, difference, product and negation are right modulo 2^64 |
| `Words.DivisionIs` | tools/kdality/simulate.c:152-205 | quotient and remainder fit the dividend, the remainder below the divisor; by zero both are zero |
| `Words.TruthIs` | tools/kdality/simulate.c:152-205 | comparisons and logic give 1 exactly where they hold, else 0 |
| `SimulateProofs.StoreLands` | tools/kdality/simulate.c:209-225 | a write or assignment with room gives the register its target names (a path its last component) the value, and no other register changes |
| `SimulateProofs.LeafValues` | tools/kdality/simulate.c:119-150 | paths, identifiers and reads have the value of the register named, numbers their own, true 1, false and strings 0 |
| `SimulateProofs.PathsShareIff` | tools/kdality/simulate.c:119-150 | a value stored through one path is seen through another if and only if their last components agree |
| `SimulateProofs.OthersStoreNothing` | tools/kdality/simulate.c:235-261 | log, emit, wait, arm and cancel change no register |
| `SimulateProofs.ReadKeepsMap` | tools/kdality/simulate.c:39-58 | a read changes no name's value, whatever the file and the name |
| `SimulateProofs.WriteTakesEffectIff` | tools/kdality/simulate.c:60-81 | a write takes effect if and only if the name has a slot, or a slot is free and the name is short, or the value is zero |
| `SimulateProofs.WriteLeavesOthersIff` | tools/kdality/simulate.c:60-81 | a write leaves every other name alone if and only if the name has a slot, or none is free, or the name is short, or its first 63 characters have a slot, or the value is zero |
| `SimulateProofs.LongWriteIsLost` | tools/kdality/simulate.c:60-81 | writing 1 to a name of 64 characters, from the empty file, leaves it at 0 and sets the name its first 63 characters make to 1 |
| `SimulateProofs.LateWriteIsLost` | tools/kdality/simulate.c:60-81 | of 65 short names set to 1 one after the other the last still reads 0, the others 1 |
| `SimulateProofs.LetBindsNothing` | tools/kdality/simulate.c:226-234 | a let changes no name's value, its own included: it has the value given if and only if it had it before |
| `SimulateProofs.LetIsLost` | tools/kdality/simulate.c:226-234 | `let x = 1; y = x;` leaves y at 0 |
| `SimulateProofs.LoopVariableIsIgnored` | tools/kdality/simulate.c:279-294 | the variable of a for makes no difference to the run |
| `SimulateProofs.EvalRefines` | tools/kdality/simulate.c:132-205 | evaluation has the value of the map semantics and leaves the map as it was |
| `SimulateProofs.ExecRefines` | tools/kdality/simulate.c:209-301 | the register file denotes exactly the map of the big-step semantics, names stay distinct, and endless runs agree |
| `SimulateProofs.SimulatorRefinesMeaning` | tools/kdality/simulate.c:209-301 | the same from the empty file for every program with at most 64 names under 64 characters |
| `Sema.Checker.FindSym` | compiler/sema.c:53-59 | the first symbol of a name |
| `Sema.Checker.CheckExpr` | compiler/sema.c:73-130 | counts the specified errors |
| `Sema.Checker.CheckStmts` | compiler/sema.c:132-195 | counts the specified errors of every statement at every depth |
| `Sema.Checker.PopulateDevice` | compiler/sema.c:200-321 | table and error count of the specification |
| `Sema.KdalSema` | compiler/sema.c:325-363 | the verdict of the specification |
| `SemaProofs.ListExact` | compiler/sema.c:132-195 | no error if and only if every target at every depth may be written and every checked expression read |
| `SemaProofs.PopulateExact` | compiler/sema.c:200-321 | for any number of declarations: no error if and only if no name the table keeps is declared again (a capability may repeat one) and all bit ranges are in order; the table then is the first 256 declared symbols in order |
| `SemaProofs.SemaAcceptsIff` | compiler/sema.c:325-363 | for any number of declarations: the verdict is zero if and only if the declarations are clean and every body is allowed by the table |
| `SemaProofs.PathRefusedIff` | compiler/sema.c:80-110 | exactly which dotted paths are refused: those that lead, by their last component or else by their second, to a register in the table that is read-only (as targets) or write-only (elsewhere) |
| `SemaProofs.TargetRefusedIff` | compiler/sema.c:73-130 | exactly which targets are refused, whatever their shape: paths that lead to a read-only register, and other expressions that read a write-only one |
| `SemaProofs.NoWriteToReadOnly` | compiler/sema.c:73-195 | with a zero verdict no dotted path written at any depth ends in a read-only register among the first 256, however many names are declared, and one that enters such a register ends in a name the table holds as something else |
| `SemaProofs.ReadOnlyIsSafeIff` | compiler/sema.c:41-91 | a device without errors protects its read-only registers and their members (`dev.REG` and `dev.REG.member`, lang/grammar/kdc.ebnf:132) from every accepted driver if and only if none of these registers is declared past the end of the table and none of the members shares its name with something in the table other than a read-only register |
| `SemaProofs.WriteRefusedIff` | compiler/sema.c:73-130 | a write by a dotted path that ends in a read-only register is refused if and only if the register is in the table, or else the path's second component is a read-only one that is |
| `SemaProofs.MemberWriteRefusedIff` | compiler/sema.c:80-110 | a write by a dotted path that enters a read-only register is refused if and only if the last component is a read-only register in the table, or the register is in the table and the last component is not |
| `SemaProofs.SignalHidesMember` | lang/stdlib/uart.kdh:33-121 | `FR` read-only with member `tx_empty`, and a signal `tx_empty`: no errors, and a write to `UART.FR.tx_empty` is accepted |
| `SemaProofs.BareWriteIsAccepted` | compiler/sema.c:73-130 | a write to a bare identifier is accepted whatever it is declared as |
| `SemaProofs.AcceptanceProtectsIff` | compiler/sema.c:325-363 | with bare identifiers counted, acceptance protects exactly the devices that have no read-only register, for registers and members alike |
| `SemaProofs.FullTableHidesReadOnly` | compiler/sema.c:41-51 | 257 registers, the last read-only: no errors, and a write to it is accepted |
| `SemaProofs.VerdictSign` | compiler/sema.c:325-363 | the result is never positive, and zero where there is no driver to check |
| `SemaProofs.UnreadStatementsPass` | compiler/sema.c:188-192 | let, emit, wait, arm, cancel, return and log are accepted whatever they read |
| `SemaProofs.ForBoundsPass` | compiler/sema.c:151-172 | the bounds of a for are accepted whatever they read |
| `SemaProofs.ConditionsAreEven` | compiler/sema.c:173-182 | exactly the expressions at even places among the children of an if are checked as conditions |
| `SemaProofs.OddConditionsPass` | compiler/sema.c:173-182 | a condition at an odd place is accepted whatever it reads |
| `Arena.RoundCoversIff` | compiler/parser.c:57-60 | the rounded size covers the request if and only if size + 7 < 2^32, and exceeds it by less than 8 |
| `Arena.RoundFallsShort` | compiler/parser.c:57-60 | a request of 2^32 - 7 bytes gets none |
| `Arena.Arena.constructor` | compiler/parser.c:43-55 | one empty block of the given capacity |
| `Arena.Arena.Alloc` | compiler/parser.c:57-73 | the result is 8-aligned, zeroed and inside its block, shares no byte with an earlier region, earlier regions keep their place and contents, and all regions together make up what is used; null exactly when a new block is needed and there is no memory, and then nothing changes |
| `Siblings.Append` | compiler/parser.c:102-111 | the list of the result is the old list followed by the whole list that starts at the node; no child changes |
| `Siblings.AddChild` | compiler/parser.c:113-123 | the children are the old children followed by the whole list that starts at the new child |
| `Siblings.ChainIsUnique` | compiler/include/ast.h:176-182 | a list head stands for one sequence of nodes only |
| `EventLog.Log.Emit` | src/core/event.c:25-49 | appends to the queue, dropping the oldest of 256, across the 32-bit wrap of the head |
| `EventLog.Log.Poll` | src/core/event.c:55-75 | removes and returns the oldest event, or says why not |
| `EventLog.Log.Shutdown` | src/core/event.c:77-83 | empties the queue |
| `EventLog.EveryRunIsAccounted` | src/core/event.c:25-83 | in every run since the last shutdown, emitted = delivered + pending + overwritten, with deliveries in emission order and no event both delivered and overwritten |
| `EventLog.PollDeliversOldest` | src/core/event.c:55-75 | a poll hands out the event emitted under the oldest pending number |
| `EventLog.OnlyFullLogLoses` | src/core/event.c:37-41 | an event is overwritten if and only if an emit finds 256 pending |
| `Ring.Ring.Write` | src/backends/qemu/qemubackend.c:53-68 | accepts min(len, free) bytes, in order, across the wrap of both indices |
| `Ring.Ring.Read` | src/backends/qemu/qemubackend.c:70-85 | returns min(len, count) of the oldest bytes and leaves the rest of the buffer alone |
| `Ring.ReadsArePrefixOfWrites` | src/backends/qemu/qemubackend.c:53-85 | in every run the accepted bytes are the returned bytes followed by those waiting, at most 4096 |
| `Uart.Device.Probe` | src/drivers/example/uartdriver.c:43-71 | an empty ring, zero counters and power on; or, where an allocation fails, nothing left behind |
| `Uart.Device.Remove` | src/drivers/example/uartdriver.c:73-84 | the ring is given up and power is off |
| `Uart.Device.ReadBytes` | src/drivers/example/uartdriver.c:86-124 | reply and state of the specification, including the failed allocation and the failed copy |
| `Uart.Device.WriteBytes` | src/drivers/example/uartdriver.c:126-163 | reply and state of the specification, including the failed allocation and the failed copy |
| `Uart.CountersAddUp` | src/drivers/example/uartdriver.c:86-163 | in every run the counters differ by the bytes in the ring and those dropped, modulo 2^64 |
| `Uart.BytesAreConserved` | src/drivers/example/uartdriver.c:86-163 | with copies succeeding, the bytes read are exactly the first bytes accepted, tx - rx is the ring's content size, and nothing is dropped |
| `Uart.DropsIff` | src/drivers/example/uartdriver.c:98-118 | bytes are lost if and only if a read takes some and cannot copy them out |
| `Uart.DropHappens` | src/drivers/example/uartdriver.c:98-118 | a byte written, then read with a failing copy, is gone |
| `Uart.PowerGates` | src/drivers/example/uartdriver.c:86-163 | in every run, from the moment power is not on until it is set again nothing moves: bytes, counters and what readers have got |
| `CharDev.Control.Handle` | src/core/chardev.c:93-240 | read, write and the select, power, info and unknown ioctls have the specified reply, with every failing copy, and the specified effect on descriptors and devices |
| `CharDev.Control.Dispatch` | src/core/chardev.c:180-212 | one device takes the step, every other device keeps its state |
| `CharDev.PowerRequest` | src/core/chardev.c:144-160 | 0 turns the selected device off, 1 on, 2 to suspend and nothing else changes; above 2 and failing copies are refused |
| `CharDev.SendIs` | src/core/chardev.c:196-212 | a send moves the first min(length, 4096, room) bytes behind those waiting if the power is on; every refusal changes nothing |
| `CharDev.RecvIs` | src/core/chardev.c:180-194 | a receive hands out the oldest min(count, 4096, waiting) bytes if the power is on; a failing copy loses them |
| `CharDev.UnselectedIsRefused` | src/core/chardev.c:144-212 | without a selection power, send, receive and nameless queries answer ENODEV |
| `CharDev.SelectionIs` | src/core/chardev.c:126-178 | select, open and close change that descriptor only; an unknown name answers ENODEV and keeps the selection |
| `CharDev.InfoIs` | src/core/chardev.c:93-124 | a query reports the power of the device named, or of the one selected |
| `CharDev.OddCallsAreRefused` | src/core/chardev.c:214-240 | unknown commands and unknown names are refused |
| `CharDev.LastSelectRules` | src/core/chardev.c:126-160 | in every run, until the descriptor is closed, opened or reselected, power requests go to the device of its last successful select and to no other |
| `CharDev.DeviceRunsAlone` | src/core/chardev.c:126-212 | for every interleaving of descriptors, the state of a device and the replies from it are those of running only the operations routed to it |
| `CharDev.DevicesAreIsolated` | src/core/chardev.c:126-212 | two interleavings that route the same operations to a device cannot be told apart on it |
| `Demand.PagesExactIff` | src/core/demand.c:36-71 | for every base and every non-zero size, the reported count is the number of pages touched if and only if that number is below 2^52 |
| `Demand.TouchedCovers` | src/core/demand.c:46-48 | the base is rounded down to its 4096-byte page, and the pages touched from there on cover the region with none to spare |
| `Demand.FirstFourAreShown` | src/core/demand.c:55-67 | the first four interrupts and the first four stream ids are shown, or all when there are fewer |
| `Demand.PagesCanBeWrong` | src/core/demand.c:36-71 | base 5000 with size 2^64 - 1 is reported as one page |
| `Demand.Printer.Put` | src/core/demand.c:25-34 | keeps the buffer a truncated prefix of the full text, with a NUL |
| `Demand.Format` | src/core/demand.c:73-86 | for every device list and length the buffer holds the first min(full length, len - 1) characters of the report and a NUL, nothing behind it changes, and the result is that length |
| `Json.ReadShown` | src/core/demand.c:36-71 | reading a printed JSON value gives the value back and leaves what follows |
| `DemandProofs.RegionIsShown` | src/core/demand.c:36-71 | the text of a region is the printed form of its JSON object |
| `DemandProofs.ReadReport` | src/core/demand.c:73-86 | reading the report gives the JSON value of the device list and leaves the final newline |
| `DemandReader.ReportReadsBack` | src/core/demand.c:36-86 | reading the report gives exactly one region per device that has a demand, in list order, with page-rounded base and count, attributes, and the first min(n, 4) interrupts and streams |
| `Registry.IndexOf` | src/core/registry.c:17-23 | the first object of a name; a missing name matches nothing |
| `Registry.RegisterIff` | src/core/registry.c:93-114 | a registration is accepted if and only if the object is ready and its name free, and refused as existing if and only if the name is held |
| `Registry.List.Find` | src/core/registry.c:159-173 | the first registered object of the name, or none |
| `Registry.List.Register` | src/core/registry.c:93-114 | appends to the ring, refuses a held name, refuses an object without a name; the ring stays well formed with distinct names |
| `Registry.List.Unregister` | src/core/registry.c:116-125 | unlinks exactly that node, and does nothing for a node that is on no list |
| `Registry.ListHoldsStillRegistered` | src/core/registry.c:93-125 | in every run names stay distinct and the list holds exactly the objects whose accepted registration was not undone |
| `Registry.FindIsUniqueHolder` | src/core/registry.c:159-173 | find returns an object if and only if it is the one still registered under the name |
| `Registry.LoserUnregistersNothing` | src/core/registry.c:93-125 | unregistering an object whose registration lost to another holder changes nothing |
| `CoreInit.Kernel.Attach` | src/core/kdal.c:37-61 | the probe sees the binding, a failed probe leaves none, and a bound device is refused |
| `CoreInit.Kernel.Detach` | src/core/kdal.c:63-72 | removes the binding, if there is one, and no other |
| `CoreInit.Kernel.DriverInit` | src/drivers/example/uartdriver.c:236-263 | leaves driver and device registered and bound, or nothing at all |
| `CoreInit.Kernel.DriverExit` | src/drivers/example/uartdriver.c:265-271 | unbinds, unregisters both, and logs the removal |
| `CoreInit.Kernel.ScanTree` | src/backends/generic/devicetree.c:94-154 | adds the entries that can be added up to the first allocation failure |
| `CoreInit.Kernel.CleanupTree` | src/backends/generic/devicetree.c:156-170 | unregisters the entries in order and forgets them |
| `CoreInit.Kernel.Unwind` | src/core/kdal.c:130-148 | entered at the label of the failed step, undoes the completed steps, last first, and nothing else |
| `CoreInit.Kernel.CoreInit` | src/core/kdal.c:76-149 | stops at the first step that fails; the trace is the completed steps followed by the same steps undone in reverse |
| `StartUp.ScanIs` | src/backends/generic/devicetree.c:94-154 | a scan gets through if and only if there is memory for every readable node, and adds exactly the entries of the mapped nodes whose names are free |
| `StartUp.StartUpSucceedsIff` | src/core/kdal.c:76-128 | start-up succeeds if and only if the calls into the kernel do, all ten names and four bindings are free, memory suffices and the probes succeed; it then leaves the old lists followed by exactly these objects in order, with the bindings and events |
| `StartUp.FirstObstacleFails` | src/core/kdal.c:76-128 | the step that fails is the first one with something in its way |
| `StartUp.StartUpCanSucceed` | src/core/kdal.c:76-128 | on an empty machine start-up succeeds and leaves two backends, four drivers, four devices, their bindings and four events |
| `CoreInit.Kernel.CoreExit` | src/core/kdal.c:151-164 | undoes all ten steps in reverse and empties the event log |
| `CoreInit.ExitUndoesStep` | src/core/kdal.c:130-164 | each exit function takes back exactly what its init function did, whatever others have registered |
| `CoreInit.CleanupUndoes` | src/backends/generic/devicetree.c:156-170 | cleaning up removes exactly the entries put in |
| `CoreInit.DownsUndoUps` | src/core/kdal.c:76-149 | undoing k completed steps restores lists, bindings and flags |
| `CoreInit.FailedInitRollsBackIff` | src/core/kdal.c:76-149 | a failed start-up restores everything but the event log if and only if it did not fail in a scan that ran out of memory after a node it could add |
| `CoreInit.RollbackCanFail` | src/core/kdal.c:106-108 | an input with that exception: memory for the first of two nodes only |
| `CoreInit.InitThenExit` | src/core/kdal.c:76-164 | start-up then shut-down restores everything, with an empty event log |
| `CoreInit.OneFailure` | src/core/kdal.c:76-128 | the failing step is determined by the state and the environment |

## Left out

- Statement emission, boilerplate, Kbuild output, command lines, files, diagnostics text and traces: input and output plumbing.
- Meaning of if, elif and else in generated C: statement emission is not modelled.
- Agreement of generated C with the simulator on loops: one is half-open, the other inclusive.
- Values of `0x` and `0b` literals with no digits, or with a second prefix after the first.
- Integer width of the line, column, token and error counters, allocation failure of tokens and nodes, and growth of the token array: tokens are a sequence.
- Source text is a sequence of characters; line and column of syntax nodes are dropped.
- Bool literals print as 0 or 1: the model takes the node to be zeroed and the host little-endian.
- The parser methods build child lists as sequences, in the order the code appends; that the linked operations give those sequences is proved in `Siblings`, apart from the parser.
- Declarations.ParseSignalDecl: does not state direction and trigger, because no later modelled step reads them.
- Declarations.ParsePowerState: does not state names and specs, because no later modelled step reads them.
- Declarations.ParseConfigField: does not state type, default and range, because no later modelled step reads them.
- Declarations.ParseCapabilityDecl: does not state the value, because no later modelled step reads it.
- Declarations.ParseRegisterDecl: does not state offset and reset value, because only warnings of the semantic pass read them.
- Declarations.ParseBitfieldMembers: does not state the reset value of a member, because no later modelled step reads it.
- Declarations.ParseDeviceBody: does not state class type, compatible string and power states, because no later modelled step reads them.
- Declarations.ParseDriver: does not state name and device class, because no later modelled step reads them.
- Declarations.KdalParse: does not state version, imports and backend, because no later modelled step reads them.
- Declarations.ParseHandler: does not state the event, because only a warning of the semantic pass reads it.
- Lexer.Lexer.LexNumber: does not state the code's value of a literal with no digits behind its prefix, because the conversion reads past the token there.
- Version, import and backend declarations: only how their parsers move over the tokens.
- The theorems about the semantic pass are about any device with any driver; that the compiler never gives it both is `Pipeline.CompilesIff`.
- Warnings of the semantic pass (overlaps, waiting in handlers, non-constant bounds): only what changes the verdict is modelled.
- Shifts by 64 or more in the simulator: their value is a parameter.
- Step counter, traces and the effects of log, emit, wait, arm and cancel in the simulator: they do not reach the register file.
- Locks and wait queues: every operation is atomic. Interleavings are sequences of whole operations.
- Driver configuration fields other than the counters, the I2C and SPI drivers (same shape as the UART) and the GPU driver (counts differently).
- CharDev.Control.Handle: does not model the list and version ioctls, which read no descriptor and no device state, nor the events sent on a power change.
- Snapshot and iteration of the registry, and find by class: easy members. The start-up model uses the lists as the sequences they stand for.
- Outcomes of misc_register, debugfs, clocks, resets, device-tree reads, ioremap, probe and allocation: parameters of `CoreInit.Env` and of the methods.
- The number of devices with a demand is not bounded: wrap of its 32-bit counter is not modelled.
- JSON beyond what the report uses (escapes, negative and fractional numbers, literals).
- Calls on a device that was never probed, or whose driver has no such operation: they fail without touching a ring.
- virtio, MMIO, and the tools around the compiler.
