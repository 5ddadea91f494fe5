# microkt in Dafny

A model of the core of microkt, a compiler for a small Kotlin subset written
in C. It emits x86-64 assembly and links it against a small runtime. The
model follows each C file on its own terms. The shown files come from
different revisions of the compiler, so the stages are not joined into one
pipeline.

- `base.dfy` (`Base`): bytes, `Option`, the ASCII classes and C strings
  (a buffer read up to its first NUL).
- `decimal.dfy` (`Decimal`): the decimal text of an integer and its value.
  This is the reference that every integer printer is proved against.
- `lex.dfy` (`Lex`): the tokenizer of `lex.h`.
  - `Lexer.Next` is the state machine of `lex_next` as a loop over a cursor.
  - It is proved equal to `Scan`, a declarative longest-match definition of
    the next token.
  - `FirstMatch` is the keyword table lookup, and `TokenGetKeyword` is the
    search loop that computes it.
- `parse.dfy` (`Parse`): the parser of `parse.h`.
  - `Parser` holds the token id and location arrays, the node arena and the
    statement list.
  - `Tokenize` lexes the whole source.
  - `ParseFrom` is the reference definition of what `parser_parse` accepts,
    and `Parser.Parse` is proved against it, down to the print node each
    statement it adds refers to.
  - `IntLiteralBuffer` is the static digit buffer of `parse_node_to_int`.
- `emit_x86.dfy` (`EmitX86`): `emit_fn_arg` and the list of system-call
  operations that `emit_emit` builds.
- `codegen_ast.dfy`, `codegen.dfy`, `codegen_emit.dfy` (`CodegenAst`,
  `Codegen`, `CodegenEmitter`): the assembly emitter of `codegen.h`.
  - The output is a sequence of abstract instructions.
  - `ExprCode`, `StmtCode` and `DeclsCode` state which instructions each node
    produces.
  - The `Emitter` class appends them to its `out` field the way the C
    functions print them, and saves and restores `currentFn`.
  - The registers saved around the runtime calls are popped in the order
    they were pushed, as `codegen.h` prints them. `codegen_saves.dfy` shows
    what that order does to the registers and gives the corrected order.
- `codegen_stack.dfy`, `codegen_labels.dfy`, `codegen_saves.dfy`: what the
  emitted code does to the machine stack, to the labels it jumps to and to
  the registers saved around runtime calls.
- `runtime.dfy` (`Runtime`): `mkt_stdlib.c`, the runtime of garbage-collected
  programs.
  - The `Heap` class holds the atom list, the allocated-bytes counter and the
    collection round.
  - The module also covers the mark bit, the sweep, allocation, string
    concatenation and the `println` variants.
- `stdlib.dfy` (`Stdlib`): `stdlib.c`, the runtime without a collector.
- `println.dfy` (`Println`): the exact line each `println` variant writes,
  and readers that take a line back to its value.
- `test_oracle.dfy` (`TestOracle`): the test driver of `test.c`.
  - It extracts the `// expect: ` lines and compares output lines against
    them.
  - It also holds the pass rules of the ordinary tests and the error tests.
- `file_names.dfy` (`FileNames`): the source, base and assembly file names of
  `main.c`.

C's `CHECK`, `PG_ASSERT_COND` and `UNREACHABLE` guards on what a caller
passes in become `requires` clauses. A `NULL` stretchy buffer is an empty one,
so `emit_emit`'s checks that the node and statement buffers are not `NULL`
ask for both to be non-empty. A check that fails on file contents becomes an
explicit error result instead:
- an empty `// expect: ` text;
- an empty output line;
- a token the parser does not expect.

## Model

| member | source | states |
|---|---|---|
| Base.StrLen | main.c:10 | the length of a C string is the index of its first NUL, or the buffer length if it has none |
| Base.CStringOfPadded | main.c:68-72 | a NUL-free string followed by NUL padding reads back as that string |
| Decimal.Digits | mkt_stdlib.c:249-253 | the digits of a natural number are at least one digit with no leading zero, and `0` gives `"0"` |
| Decimal.ValueOfDigits | mkt_stdlib.c:249-253 | reading the digits of `n` back gives `n` |
| Decimal.DigitsOfValue | mkt_stdlib.c:249-253 | a digit string without a leading zero is the digits of its own value (the other half of the round trip) |
| Decimal.DigitsLength | mkt_stdlib.c:242-259 | a number below 10^k has at most k digits |
| Decimal.TextOfLongFits | mkt_stdlib.c:242-259 | the text of every `long long`, sign included, has at most 20 bytes, so it fits the 23-byte buffer |
| Lex.IdentifierCharClasses | lex.h:81-84 | `lex_is_identifier_char` holds exactly for ASCII digits, letters and `_` |
| Lex.FirstMatch | lex.h:69-78 | the lookup finds a keyword iff some table entry matches, and returns the id of the first match in table order |
| Lex.TokenGetKeyword | lex.h:69-78 | the search loop over the table returns `FirstMatch` over the `true`, `false`, `print` table |
| Lex.MatchesIffPrefix | lex.h:69-78 | comparing `MIN(len, 20)` bytes against the zero-padded key matches iff the word is a non-empty prefix of the keyword |
| Lex.KeywordOfIdentifier | lex.h:49-53 | a letter word is `true`, `false` or `print` iff it is a prefix of that keyword, in table order, and an identifier otherwise |
| Lex.SkipWhitespace | lex.h:105-113 | the start state moves over exactly the run of whitespace bytes |
| Lex.LetterRunEnd | lex.h:233-289 | the identifier state moves over exactly the run of letters and `_` |
| Lex.IntRunEnd | lex.h:207-223 | the integer state moves over exactly the run of digits and `_` |
| Lex.QuoteAt | lex.h:309-320 | the string state stops at the next quote or at the end of the source |
| Lex.ScanSpan | lex.h:91-339 | the token lies within the source after the cursor, is empty iff it is EOF and is non-empty otherwise |
| Lex.ScanSkipsWhitespace | lex.h:105-113 | every byte between the cursor and the token start is whitespace, and the token does not start on whitespace |
| Lex.ScanEof | lex.h:95-113 | EOF is returned iff every remaining byte is whitespace, and its span is then empty at the end of the source |
| Lex.ScanWord | lex.h:233-305 | a word token spans a maximal run of letters, and a keyword is classified only when a byte follows the word |
| Lex.ScanTruePrefix | lex.h:296-303 | the one-letter word `t` followed by a space is classified as `true` |
| Lex.ScanPrintPrefix | lex.h:296-303 | `p` followed by `(` is classified as `print` |
| Lex.ScanNumber | lex.h:186-229 | a number starts with 1-9, runs over digits and `_`, and is INVALID iff a letter follows it, with that letter not consumed |
| Lex.ScanString | lex.h:309-331 | a token is a string literal iff it starts at a quote; its span holds both quotes, or runs to the end of the source when unterminated |
| Lex.ByteExit | lex.h:114-123 | `(` and `)` are one-byte LPAREN and RPAREN tokens, and any other unlisted byte, a leading `0` included, is a one-byte INVALID token |
| Lex.EofExit | lex.h:95-113 | at an all-whitespace rest the token is EOF at the end of the source |
| Lex.Lexer.constructor | lex.h:86-89 | `lex_init` sets the source and puts the cursor at 0 |
| Lex.Lexer.Next | lex.h:91-339 | the token returned is `Scan` at the old cursor, and the cursor ends at the token's end, so it never moves backwards or past the source |
| Parse.Tokenize | parse.h:35-43 | the tokens of the source start with the token at the cursor |
| Parse.TokenizeEndsWithEof | parse.h:35-43 | the token list ends with its only EOF |
| Parse.TokenizeSpans | parse.h:35-43 | the token spans are in order and lie within the source |
| Parse.TokenizeScans | parse.h:35-43 | each token is the one the lexer returns at the end of the previous token |
| Parse.LexAll | parse.h:35-43 | the loop calling `lex_next` up to and including the first EOF fills the id and location arrays with the ids and spans of `Tokenize`, of equal length and ending in EOF |
| Parse.Parser.constructor | parse.h:22-53 | `parser_init` lexes the whole source and starts with no nodes, no statements and the token cursor at 0 |
| Parse.NextNonComment | parse.h:82-93 | the index of the first non-comment token at or after the cursor, with only comments skipped |
| Parse.Parser.NextToken | parse.h:75-94 | `parser_next_token` returns the first non-comment token at or after the cursor and leaves the cursor just past it |
| Parse.Parser.EatToken | parse.h:96-110 | on a match the cursor advances and the token index is returned with RES_OK; on a mismatch it returns RES_NONE with the cursor unchanged |
| Parse.Parser.ExpectToken | parse.h:151-167 | always consumes one non-comment token, and returns RES_OK iff its id is the expected one and RES_ERR otherwise |
| Parse.Parser.PushNode | parse.h:112-149 | `buf_push` appends exactly the node and returns its arena index |
| Parse.PrimaryNode | parse.h:112-149 | a primary token becomes a non-print node that refers to that token |
| Parse.Parser.ParsePrimary | parse.h:112-149 | for `true`, `false`, a string or an int, exactly one node is pushed, the token consumed and the last index returned; otherwise RES_NONE with nothing pushed or consumed |
| Parse.PrintAt | parse.h:169-194 | the three outcomes of a print at the cursor: not a print, a failure after the consumed tokens, or `print ( primary )` with its token positions |
| Parse.PrintArgs | parse.h:176-191 | after the `print` keyword: a failure once `(` or the primary is missing (naming the tokens consumed and the pushed argument), a failure when `)` is missing, or the positions of `(` and `)` |
| Parse.Parser.ParsePrintArgs | parse.h:176-191 | follows `PrintArgs`: RES_ERR with the cursor past the consumed tokens and only the argument node pushed, or RES_OK with the argument and print nodes pushed |
| Parse.Parser.ParsePrintArg | parse.h:179-191 | with the cursor past `(`: no primary gives RES_ERR with nothing consumed; a primary not followed by `)` pushes only the argument node; otherwise the print node follows it |
| Parse.Parser.ParseBuiltinPrint | parse.h:169-194 | follows `PrintAt`; on success the argument node is pushed before the print node, so the print node's index is the larger, and the cursor ends past `)` |
| Parse.Parser.Parse | parse.h:196-229 | returns RES_OK iff `ParseFrom` accepts and RES_ERR otherwise; the arena and the statement list only grow, and the statements added are, in order, the print nodes of the prints `ParseFrom` visits, each with its `print` and `)` tokens and over the literal node of the token after its `(` |
| Parse.Parser.ParseStep | parse.h:203-226 | one turn of the loop keeps `StepKept`: the arena and statements only grow, the statements added record the first prints of the verdict ahead, and the loop either continues from a later token with the rest of that verdict ahead, or stops with RES_OK iff the verdict is acceptance and every print of it recorded |
| Parse.Parser.ParseTail | parse.h:211-225 | with no print accepted: RES_ERR at the end of the token array, a comment skipped, RES_OK at EOF and RES_ERR at any other token |
| Parse.PrintStepKept | parse.h:203-208 | an accepted print pushes its literal and print nodes, records the print node as the next statement and continues after `)` |
| Parse.OtherStepKept | parse.h:203-225 | a turn with no accepted print records no statement and ends as `ParseTail` decides from where the attempt left the cursor |
| Parse.NodesOkAppend | parse.h:112-149 | pushing a well-formed node keeps every node of the arena well formed |
| Parse.ParseAcceptsPrints | parse.h:203-226 | any sequence of `print ( primary )` statements followed by EOF is accepted, visiting the `k`-th print with its `print`, `(` and `)` at tokens `4k`, `4k + 1` and `4k + 3` past the start |
| Parse.FirstPrintStatement | parse.h:169-194 | the first of such a run is accepted as a print with `(` and `)` one and three tokens on, and the rest of the run follows it |
| Parse.ParseSkipsComment | parse.h:214-217 | a comment token at the cursor is skipped without changing the verdict |
| Parse.ParseRejectsStrayToken | parse.h:219-226 | a token other than print, comment or EOF at statement level is rejected |
| Parse.ParseAcceptsPrintWithoutParens | parse.h:203-212 | `print 1` with no parentheses is accepted with no statement, because the failing print is not reported and the loop goes on |
| Parse.ParseReadsPastEndOnBarePrint | parse.h:203-212 | after a bare `print` whose failing `(` check consumes the EOF, the loop reads a token id past the end of the array |
| Parse.BarePrintTokens | lex.h:296-304 | the source `print` followed by a newline lexes to exactly PRINT then EOF |
| Parse.BarePrintReadsPastEnd | parse.h:203-212 | that source drives `parser_parse` past the end of its token array |
| Parse.StringTokenShape | parse.h:63-72 | a string token starts at a quote, holds no quote inside, and ends at a closing quote or at the end of the source |
| Parse.StringNodeSource | parse.h:63-72 | for a terminated string span, `parser_ast_node_source` gives the span strictly between the two quotes (start + 1, length - 2), which holds no quote |
| Parse.UnterminatedQuoteLengthWraps | parse.h:67-72 | for the lone source `"`, length - 2 wraps around to 2^64 - 1 in `usize` |
| Parse.IntTokenShape | parse.h:63-72 | an int token starts with 1-9 and continues over digits and `_` |
| Parse.IntNodeSource | parse.h:55-73 | for an int node the source span is the whole non-empty token within the source |
| Parse.IntTokensInSource | parse.h:55-73 | every int token of the source has such a span |
| Parse.LeadingDigits | parse.h:245 | the maximal run of decimal digits at the start of a buffer |
| Parse.StrToLL | parse.h:245 | `strtoll` on a digit buffer is a non-negative `long long` |
| Parse.LiteralValue | parse.h:231-246 | the value of a literal is that of its digit prefix, within `long long` |
| Parse.LeadingDigitsOfTerminated | parse.h:243-245 | a NUL after the literal ends its digit prefix, whatever follows |
| Parse.TerminatedValue | parse.h:243-245 | copying a literal and storing a NUL after it makes `strtoll` read exactly that literal's value |
| Parse.UnderscoreEndsLiteral | parse.h:245 | `1_000` converts to 1, because `strtoll` stops at `_` |
| Parse.IntLiteralBuffer.constructor | parse.h:243 | the static buffer starts zeroed |
| Parse.IntLiteralBuffer.Copy | parse.h:244 | `memcpy` overwrites the first bytes of the buffer with the literal and keeps the rest |
| Parse.Literal | parse.h:236-239 | the literal of an int node is its source span, non-empty and starting with 1-9 |
| Parse.IntLiteralBuffer.NodeToInt | parse.h:231-246 | as written: the buffer keeps the old bytes after the copied literal, and the result is `strtoll` of the whole buffer |
| Parse.IntLiteralBuffer.CopyTerminated | parse.h:243-245 | the corrected copy stores a NUL after the literal, and the value read is the literal's value |
| Parse.IntLiteralBuffer.NodeToIntTerminated | parse.h:231-246 | the corrected conversion returns the value of the node's own literal |
| Parse.StaleDigitsLeak | parse.h:243-245 | converting `12345` and then `7` gives 72345 for the second literal |
| EmitX86.FnArg | emit_x86_64.h:34-57 | positions 0 to 8 map to a register and larger ones are unimplemented; no callee-saved or stack register is used |
| EmitX86.FnArgInverse | emit_x86_64.h:34-57 | `ArgPosition` inverts the register map for all positions and registers (both directions) |
| EmitX86.FnArgInjective | emit_x86_64.h:34-57 | different positions map to different registers |
| EmitX86.WriteOp | emit_x86_64.h:121-134 | a print becomes a syscall with four arguments, the third being the address of its label |
| EmitX86.ExitOp | emit_x86_64.h:147-157 | the last op is a syscall with two arguments |
| EmitX86.Emit | emit_x86_64.h:92-161 | the text section holds one write per statement, in order, with label ids 1, 2, 3, ... and the argument's source length, then the exit; the data section is empty |
| Codegen.AlignTo16 | codegen.h:53-57 | the least multiple of 16 that is at least `n` |
| Codegen.Int8 | codegen.h:304-305 | a byte printed as a signed `char`: in -128..127 and equal to the value modulo 256 |
| Codegen.LoadCode | codegen.h:126-147 | nothing for a function or class type, otherwise one load, 64-bit for any size other than 1, 2 and 4 |
| Codegen.StoreCode | codegen.h:150-173 | `pop %rdi` followed by a store |
| Codegen.BinaryTail | codegen.h:319-452 | after both operands, `pop %rdi` comes first, except for string concatenation, which saves registers around `mkt_string_concat` and pops them in push order as printed; a comparison ends with `cmp`, the `set` of its kind and a zero extension |
| Codegen.ArgPops | codegen.h:531 | the syscall arguments are popped into the argument registers in order |
| Codegen.ParamStores | codegen.h:191-205 | two stores per parameter |
| CodegenStack.SaveAroundBalanced | codegen.h:278-302 | the save and restore around a runtime call, as printed, leaves the stack as it found it and never pops below it |
| CodegenStack.StringCodeBalanced | codegen.h:266-308 | the code of a string literal is stack-balanced |
| CodegenStack.BinaryTailStack | codegen.h:319-452 | the tail of a binary operator pops exactly the one value the operands pushed |
| CodegenStack.AddrNoStack | codegen.h:59-124 | taking an address does not touch the stack |
| CodegenStack.IfBalanced | codegen.h:468-487 | an `if` built from balanced parts is balanced |
| CodegenStack.WhileBalanced | codegen.h:699-714 | a `while` built from balanced parts is balanced |
| CodegenStack.ExprBalanced | codegen.h:238-634 | the code of every expression that `emit_expr` accepts is stack-balanced |
| CodegenStack.SysCallArgsBalanced | codegen.h:522-537 | the pushes, pops and final syscall of a syscall node are balanced |
| CodegenStack.CallBalanced | codegen.h:554-571 | the code of a call is balanced |
| CodegenStack.PushArgsStack | codegen.h:527-530 | the argument pushes of a syscall net exactly one slot per argument after the first |
| CodegenStack.CallArgsBalanced | codegen.h:558-565 | evaluating call arguments into registers is balanced |
| CodegenStack.BlockBalanced | codegen.h:538-547 | a block of accepted statements is balanced |
| CodegenStack.StmtBalanced | codegen.h:636-729 | the code of every statement that `emit_stmt` accepts is stack-balanced |
| CodegenStack.StoreStack | codegen.h:150-173 | a store pops exactly the pushed address |
| CodegenStack.PrologStack | codegen.h:175-206 | the prologue pushes `%rbp` once and nothing else |
| CodegenStack.EpilogStack | codegen.h:208-217 | the epilogue pops it once |
| CodegenStack.FnCodeBalanced | codegen.h:802-851 | the whole code of a function declaration is balanced |
| CodegenStack.DeclsBalanced | codegen.h:802-851 | the code of all declarations is balanced |
| CodegenLabels.IfJumps | codegen.h:468-487 | an `if` defines its else and end labels, and every jump in it targets a label it defines or the function's return label |
| CodegenLabels.IfDefs | codegen.h:468-487 | the labels an `if` defines are those of its parts plus `.L.else.<i>` and `.L.end.<i>` |
| CodegenLabels.IfTargets | codegen.h:468-487 | the labels an `if` jumps to are those of its parts plus `.L.else.<i>` and `.L.end.<i>` |
| CodegenLabels.WhileJumps | codegen.h:699-714 | a `while` defines its start and end labels, and its jumps stay closed |
| CodegenLabels.WhileDefs | codegen.h:699-714 | a `while` defines the labels of its parts plus its start and end labels |
| CodegenLabels.WhileTargets | codegen.h:699-714 | a `while` jumps to the labels of its parts plus its start and end labels |
| CodegenLabels.ReturnJumps | codegen.h:453-460 | a `return` jumps to `.L.return.<current_fn_i>` and nowhere else |
| CodegenLabels.ExprJumps | codegen.h:238-634 | every jump in the code of an accepted expression targets a label defined in it or the current function's return label |
| CodegenLabels.StmtJumps | codegen.h:636-729 | the same for every accepted statement |
| CodegenLabels.EpilogDefs | codegen.h:208-217 | the epilogue defines the function's return label and has no jump |
| CodegenLabels.FnCodeClosed | codegen.h:802-851 | every jump in the code of a function targets a label defined in that code |
| CodegenLabels.DeclsClosed | codegen.h:802-851 | every jump in the whole output targets a label defined in it |
| CodegenSaves.SaveAroundRestores | codegen.h:278-302 | in the corrected sequence `SaveAroundFixed`, with pops in reverse order of the pushes, each saved register gets back its value from before the call, the others keep the callee's value, and the stack is restored |
| CodegenSaves.SaveAroundMirrors | codegen.h:278-302 | with the pops in push order as written, register `j` of the list receives the value of register `n - 1 - j` |
| CodegenSaves.StringSaveLosesRsi | codegen.h:278-302 | around `mkt_string_make` the code as written replaces `%rsi` by the old `%r12`, while the corrected order keeps it |
| CodegenEmitter.Emitter.constructor | codegen.h:802-851 | the emitter starts with empty output |
| CodegenEmitter.Emitter.EmitDeclAddr | codegen.h:92-117 | emits the address of a declaration and gives `current_fn_i` back its caller's value |
| CodegenEmitter.Emitter.EmitAddr | codegen.h:59-124 | appends `AddrCode` and leaves `current_fn_i` as it was |
| CodegenEmitter.Emitter.EmitLoad | codegen.h:126-147 | appends `LoadCode` |
| CodegenEmitter.Emitter.EmitStore | codegen.h:150-173 | appends `StoreCode` |
| CodegenEmitter.Emitter.EmitExpr | codegen.h:238-634 | appends exactly `ExprCode` of the node and leaves `current_fn_i` as it was |
| CodegenEmitter.Emitter.EmitBinary | codegen.h:319-452 | right operand, push, left operand, then the operator's tail |
| CodegenEmitter.Emitter.EmitReturn | codegen.h:453-460 | the value, then a jump to the current function's return label |
| CodegenEmitter.Emitter.EmitIf | codegen.h:468-487 | condition, test and jump to else, then-branch, jump to end, else label, else-branch if present, end label |
| CodegenEmitter.Emitter.EmitPrintln | codegen.h:488-521 | the argument, then the call of the runtime printer chosen by its type |
| CodegenEmitter.Emitter.EmitSysCall | codegen.h:522-537 | appends `ExprCode` of the syscall node |
| CodegenEmitter.Emitter.EmitSysCallArgs | codegen.h:522-537 | pushes of the arguments after the first in reverse order, pops into the argument registers, the first argument, `syscall` |
| CodegenEmitter.Emitter.EmitPushArgs | codegen.h:527-530 | the loop from the last argument down to the second, each evaluated and pushed |
| CodegenEmitter.Emitter.EmitArgPops | codegen.h:531 | the loop popping into the argument registers |
| CodegenEmitter.Emitter.EmitBlock | codegen.h:538-547 | the loop over the block's statements |
| CodegenEmitter.Emitter.EmitCall | codegen.h:554-571 | each argument moved into its register in order, then the callee and the indirect call |
| CodegenEmitter.Emitter.EmitStmt | codegen.h:636-729 | appends exactly `StmtCode` of the node and leaves `current_fn_i` as it was |
| CodegenEmitter.Emitter.FnProlog | codegen.h:175-206 | appends `PrologCode` for an aligned, non-negative frame size |
| CodegenEmitter.Emitter.FnEpilog | codegen.h:208-217 | appends `EpilogCode` with the current function's return label |
| CodegenEmitter.Emitter.EmitProgramEpilog | codegen.h:219-224 | appends the exit of the platform |
| CodegenEmitter.Emitter.EmitFn | codegen.h:833-848 | emits a function with `current_fn_i` set to it and then restored |
| CodegenEmitter.Emitter.EmitFrame | codegen.h:802-851 | appends the frame of the function: label, prologue, body, main's exit, epilogue |
| CodegenEmitter.Emitter.EmitDecl | codegen.h:802-851 | one step of the loop over declarations extends the output from `DeclsCode(k)` to `DeclsCode(k + 1)` |
| CodegenEmitter.Emitter.Emit | codegen.h:802-851 | appends `DeclsCode` of all declarations and restores `current_fn_i` |
| Println.BoolLineRoundTrip | stdlib.c:17-25 | reading back `true\n` or `false\n` gives the printed boolean |
| Println.IntLineRoundTrip | stdlib.c:32-49 | reading back a printed integer line gives the integer |
| Println.IntLineInjective | stdlib.c:32-49 | different integers print different lines |
| Runtime.MarkBits | mkt_stdlib.c:107-116 | marking sets the MARKED bit, is idempotent, changes nothing on a marked tag and keeps the other bits |
| Runtime.UnmarkBits | mkt_stdlib.c:166-168 | clearing the bit keeps the other bits and undoes a mark |
| Runtime.MarkRoots | mkt_stdlib.c:130-149 | marking by roots changes each atom only by its mark |
| Runtime.HeaderAt | mkt_stdlib.c:119-128 | a header is found iff some atom's data address is the address, and then it is that atom's header |
| Runtime.InstanceLine | mkt_stdlib.c:297-312 | the instance line ends with a newline |
| Runtime.FreedAtMostTotal | mkt_stdlib.c:162-193 | the bytes the sweep frees never exceed the footprint of the list |
| Runtime.SurvivorBytes | mkt_stdlib.c:162-193 | the survivors' footprint plus the freed bytes is the footprint before the sweep |
| Runtime.SurvivorsCameFrom | mkt_stdlib.c:162-193 | every survivor is an atom that was marked, with its mark now cleared |
| Runtime.MarkedSurvive | mkt_stdlib.c:162-193 | every marked atom survives with its mark cleared |
| Runtime.SurvivorsDistinct | mkt_stdlib.c:162-193 | the survivors keep distinct addresses |
| Runtime.UnmarkedFreed | mkt_stdlib.c:162-193 | an unmarked atom is gone after the sweep |
| Runtime.CollectedExactly | mkt_stdlib.c:195-203 | after marking and sweeping, an atom survives iff it was marked or a root points at its data |
| Runtime.SweepTwiceEmpties | mkt_stdlib.c:162-193 | a second sweep with no marking in between frees every atom |
| Runtime.LowByteWriteKeepsSize | mkt_stdlib.c:292 | the `char` store through `*(ret - 8)` writes the low byte of `rv_size`, the first of the 54-bit field laid out at mkt_stdlib.c:59-61; it stores the byte the size already holds, so the size field is unchanged |
| Runtime.Heap.constructor | mkt_stdlib.c:7-8 | both counters start at zero and the list `objs` starts empty |
| Runtime.Heap.AtomCons | mkt_stdlib.c:73-85 | the item becomes the head with the old list after it, and the counters are unchanged |
| Runtime.Heap.AllocAtomMake | mkt_stdlib.c:87-100 | prepends a zeroed atom and adds header, link and size to the byte counter |
| Runtime.Heap.MarkAtom | mkt_stdlib.c:107-116 | sets the MARKED bit of one atom and changes nothing else |
| Runtime.Heap.FindDataByAddr | mkt_stdlib.c:119-128 | returns the first atom whose data address is the address, or none iff there is no such atom |
| Runtime.Heap.ScanRoots | mkt_stdlib.c:130-149 | marks exactly the atoms whose data a root points at |
| Runtime.Heap.Sweep | mkt_stdlib.c:162-193 | the list becomes the marked atoms in their order with the mark cleared, and the counter drops by the freed bytes |
| Runtime.Heap.Gc | mkt_stdlib.c:195-203 | one round: marking by roots then the sweep, and the round counter goes up by one |
| Runtime.Heap.MakeTagged | mkt_stdlib.c:205-225 | collects, then prepends a zeroed atom with the size and the kind tag at an address no surviving atom uses, and returns its data address |
| Runtime.Heap.StringMake | mkt_stdlib.c:205-214 | collects, then prepends a zeroed string atom of the given size and returns its data address |
| Runtime.Heap.InstanceMake | mkt_stdlib.c:216-225 | collects, then prepends a zeroed atom with the size and the INSTANCE tag and returns its data address |
| Runtime.Heap.StringConcat | mkt_stdlib.c:282-295 | collects, then prepends a string atom whose bytes are those of `a` then `b` and whose size is the sum |
| Runtime.Heap.InstancePrintln | mkt_stdlib.c:297-312 | writes `Instance of size `, the size recorded in the header in decimal, and a newline |
| Runtime.IntToString | mkt_stdlib.c:242-259 | fills the last `len` bytes of the 23-byte buffer with the text the code as written gives (the sign, then the loop's bytes for the 64-bit `-n`) and keeps the rest; that text is the decimal text of `n` for every `long long` but the smallest |
| Runtime.CopyConcat | mkt_stdlib.c:282-295 | the new buffer holds the bytes of `a` then those of `b` |
| Runtime.PutDigits | mkt_stdlib.c:249-256 | the do-while writes `'0'` plus C's remainder right to left until the quotient is 0, ends just before `end`, and leaves the other bytes alone |
| Runtime.BoolPrintln | mkt_stdlib.c:227-235 | writes `true\n` for a nonzero argument and `false\n` otherwise |
| Runtime.CharPrintln | mkt_stdlib.c:237-240 | writes the character then a newline |
| Runtime.IntPrintln | mkt_stdlib.c:261-269 | writes the text as written of `n` then a newline, which is the decimal line for every `long long` but the smallest |
| Runtime.StringPrintln | mkt_stdlib.c:271-280 | writes the string's bytes and a newline iff the header has the STRING tag |
| Stdlib.PrintlnInt | stdlib.c:32-49 | writes the sign, the loop's bytes for the 64-bit `-n` and the newline, the same text as written as `mkt_int_to_string`, which is the decimal line for every `long long` but the smallest |
| Stdlib.PrintLine | stdlib.c:33-48 | the last `len` bytes of the 23-byte buffer: the sign if negative, the loop's bytes for the magnitude, the newline |
| Stdlib.PrintlnIntUnsigned | stdlib.c:32-49 | with the magnitude taken in unsigned arithmetic, the decimal line of `n` for every `long long`, which reads back as `n` |
| Stdlib.PrintlnString | stdlib.c:51-54 | stores a newline at `s[len]` in the caller's buffer and writes the string and the newline |
| Stdlib.PrintersAgree | stdlib.c:32-49 | both runtimes print the same line for every `long long`, and it reads back as the number exactly when the number is not the smallest `long long` |
| Stdlib.LongMinUnreadable | stdlib.c:37-44 | the line printed for the smallest `long long` reads as no number at all |
| Decimal.CRem10 | stdlib.c:41 | C's remainder by 10 takes the sign of the dividend |
| Decimal.DoWhileDigitsOfNat | stdlib.c:40-44 | for a non-negative argument the do-while stores exactly the decimal digits |
| Decimal.AsWrittenAgrees | stdlib.c:37-46 | away from the smallest `long long`, the code as written prints the decimal text |
| Decimal.LongMinMisprinted | stdlib.c:37-38 | for the smallest `long long` the code as written ends its text with `(` instead of a digit |
| Decimal.DoWhileDigitsOfNeg | stdlib.c:40-44 | for a negative argument the do-while stores as many bytes as the magnitude has digits |
| Decimal.AsWrittenTextFits | mkt_stdlib.c:246-256 | the text as written, wrap included, has at most 20 bytes and fits the buffer |
| Decimal.DoWhileSplit | mkt_stdlib.c:249-256 | one turn of the loop stores `'0'` plus the remainder and leaves the bytes of the quotient before it, stopping when that is 0 |
| Decimal.Neg64Wraps | stdlib.c:38 | the 64-bit `-n` is the negation reduced modulo 2^64 into the `long long` range, which is `-n` itself except for the smallest value |
| Runtime.DigitStep | mkt_stdlib.c:249-256 | one turn of the loop stores the next byte just before those already written and leaves the quotient's bytes still to come |
| Runtime.SignBefore | mkt_stdlib.c:258 | the `-`, when the number is negative, goes just before the loop's bytes at the end of the buffer |
| Runtime.ReplaceHead | mkt_stdlib.c:292 | overwriting the new head atom in place keeps the heap's invariants and makes its header the one found at its data address |
| TestOracle.StrChr | test.c:58-64 | `strchr` finds the first occurrence before any NUL |
| TestOracle.StrChrFinds | test.c:58-64 | it finds the first occurrence when nothing before it is the byte or NUL |
| TestOracle.ScanWithin | test.c:48-74 | every expectation span lies within the buffer |
| TestOracle.NextExpectation | test.c:57-71 | one turn of the loop: stop, abort on an empty text, or the expectation found and the position where scanning resumes |
| TestOracle.ExpectsFromString | test.c:48-74 | the loop returns exactly the expectations of `Scan` |
| TestOracle.Expects | test.c:48-74 | the expectations of a source lie within it |
| TestOracle.ExpectsRoundTrip | test.c:48-74 | rendering a list of non-empty texts as `// expect: ` lines and extracting them gives back the list |
| TestOracle.ScanRendered | test.c:57-71 | after a match scanning resumes just past the line's newline, so rendered lines give one span each in order |
| TestOracle.RenderedTexts | test.c:57-71 | those spans hold the rendered texts |
| TestOracle.RenderedLine | test.c:57-71 | one rendered line gives its span and scanning goes on after its newline |
| TestOracle.ExpectationOverRead | test.c:58-64 | a last line without a newline reads its text past the end of the source into the bytes after it |
| TestOracle.OutputLines | test.c:138-166 | the output splits into non-empty lines, or aborts on an empty one |
| TestOracle.OutputLineAt | test.c:138-166 | one turn of the comparison loop takes the next line up to its newline |
| TestOracle.CompareOutput | test.c:138-166 | the loop's verdict is `Judge` of the output lines against the expectations |
| TestOracle.PassIffPrefix | test.c:141-166 | the output passes iff its lines are a prefix of the expectations |
| TestOracle.SurplusIgnored | test.c:141-166 | adding expectations to a passing run keeps it passing |
| TestOracle.ExeName | test.c:85-89 | the executable name replaces the final `kts` with `exe` |
| TestOracle.SimpleTestRun | test.c:76-173 | the executable name as above, and the verdict from the exit code and the output comparison, with the expectations scanned from the unterminated source buffer and the memory after it |
| TestOracle.RenderedTestPasses | test.c:76-173 | a program that exits with 0 and prints a prefix of its expectations passes, whatever memory follows its source |
| TestOracle.ErrTestRun | test.c:175-201 | an error test passes iff the compiler exits with a nonzero code |
| FileNames.KtsNamesValid | main.c:9-12 | every name ending in `.kts` with a non-empty stem is valid |
| FileNames.LastByteUnchecked | main.c:9-12 | any last byte after `.kt` is accepted, because only three bytes are compared |
| FileNames.ShortNamesInvalid | main.c:9-12 | names of at most four bytes are invalid |
| FileNames.ValidNameShape | main.c:9-12 | a valid name is a stem, `.kt` and one more byte |
| FileNames.BaseSourceFileName | main.c:14-24 | zeroes exactly the last four bytes of the name in the base buffer |
| FileNames.BaseName | main.c:88-90 | the base buffer reads as the name without its last four bytes |
| FileNames.AsmFileName | main.c:67-72 | the assembly name keeps the length and replaces the last three bytes with `asm` |
| FileNames.AsmNameExtendsBase | main.c:67-72 | the assembly name is the base name followed by `.asm` |
| FileNames.RunNames | main.c:33-37 | an invalid name is rejected before any file is opened; otherwise the base and assembly names above |

## Left out

- File and process I/O are not modelled: `fopen`, `mmap`, `popen` of the assembler and linker, `stat` and `read` of the tests, and `proc_run`. What a process prints and its exit code are parameters.
- Colour printing in the test driver and all diagnostics written to standard error are left out.
- The `.loc` debug lines from `emit_loc` are left out. So are the fixed text blocks of `emit` and `macos_x86_64_stdlib.h`.
- Emitted instructions are abstract values. What `idiv`, `imul` or `syscall` compute is not modelled. `CodegenSaves.Exec` runs only `push`, `pop` and `call`.
- The stack scan of the collector is not modelled: it reads raw stack words. The roots are a parameter of `Runtime.Heap.ScanRoots`, and an atom is marked when a root equals its data address.
- The `mkt_gc_trace_refs` and `mkt_gc_obj_blacken` stubs do nothing and are left out.
- `mmap` addresses are parameters. The address of a new atom only has to differ from those of the atoms that survive the collection run in the same call, so it may be one that collection just gave back. `READ_RBP`, `READ_RSP`, `mkt_init`, `munmap`, `kill` and the inline-asm `write` are left out.
- Runtime.Heap.AtomCons: the check that `item` differs from the head pointer has no counterpart. Atoms are values in a sequence, so a self-link cannot arise.
- Runtime.Heap.StringConcat: it reads its operands as byte sequences instead of through their headers.
- Runtime.Heap.Sweep: `gc_allocated_bytes` is unbounded. The `CHECK` that it does not go below zero becomes the invariant that it is at least the footprint of the list.
- Parse: the lexer of `lex.h` never produces the COMMENT token kind that `parse.h` skips. The model adds it as an extra kind, so comments can only be reasoned about at the token level.
- The revisions are not joined into one pipeline. The `Program` that `codegen.h` reads is built directly. It is not built from the parser of `parse.h`, which produces no functions, variables or classes.
- CodegenStack: stack balance is counted over the instruction text and does not follow jumps. A `return` used as a binary operand jumps to the epilogue with one operand slot still pushed, and no lemma covers that path.
- CodegenAst.ExprKindOk: a variable must refer to a declaration node, and a syscall has at most seven arguments. `emit_expr` would otherwise read outside the argument register table.
- Codegen.AlignTo16: `n + 15` is computed on unbounded integers. The `int` overflow for sizes near 2^31 is not modelled.
- CodegenEmitter.Emitter.Emit: it requires `current_fn_i` to index a node whenever there is a declaration. The C global starts at 0.
- TestOracle.StrChr: it stops at the end of the 2048-byte output buffer. When exactly 2048 bytes are read, the real `strchr` can read past that buffer.
- FileNames.AsmFileName: it requires the name to fit in `MAXPATHLEN` bytes. The C code would overflow its buffer for a longer name. `MAXPATHLEN` is taken as 1024.
- TestOracle.SimpleTestRun: the source file, the memory after its buffer and the program's output are parameters, not read from disk or from a child process. The search for the end of an expectation stops at the end of that memory parameter, while the C `strchr` goes on until it meets a NUL.

## Findings

| source | as written | input that shows it | evidently intended | confidence | as-written member | corrected member |
|---|---|---|---|---|---|---|
| parse.h:243-245 | the static buffer is never cleared, so `strtoll` also reads digits left by a longer earlier literal | the literals `12345` then `7` convert to 12345 then 72345 | each literal converts to its own value | not executed | Parse.StaleDigitsLeak | Parse.IntLiteralBuffer.NodeToIntTerminated |
| parse.h:203-212 | a failing print is ignored; when its `(` check consumed the EOF, the loop reads the token id one past the end of the array | the source `print` followed by a newline | the loop stops at the last token, or the failing print is reported | not executed | Parse.BarePrintReadsPastEnd | Parse.Parser.Parse |
| codegen.h:278-302 | the registers saved around a runtime call are popped in the order they were pushed, so the list is restored mirrored; the same pops follow `mkt_string_concat` at codegen.h:399-408 and `mkt_instance_make` at codegen.h:596-609 | a string literal with `%rsi` = 2 and `%r12` = 0 before it: `%rsi` is 0 after | the pops come in reverse order, so every register gets its own value back | not executed | CodegenSaves.StringSaveLosesRsi | CodegenSaves.SaveAroundRestores |
| stdlib.c:37-38 | `-n` wraps for the smallest `long long`, and the digit loop then stores `'0'` plus negative remainders; `mkt_int_to_string` does the same at mkt_stdlib.c:246-250 | -9223372036854775808 prints a text ending in `(` | the decimal text of the number | not executed | Decimal.LongMinMisprinted | Stdlib.PrintlnIntUnsigned |
| test.c:58-64 | the search for the end of the last expectation is not bounded by the source length | a source ending in `// expect: 12` with no newline, followed in memory by `3\n`, expects `123` | the text ends at the end of the source | not executed | TestOracle.ExpectationOverRead | TestOracle.Expects |
