# Two incremental Scheme compilers, modelled and verified in Dafny

The repository holds two versions of a small compiler for a Scheme subset, written in
the incremental style of Ghuloum's "An Incremental Approach to Compiler Construction".

- **compiler.py** turns an expression tree into x86-64 assembly text, one line at a time.
  - Values are tagged immediates: fixnums shifted by 2, booleans `(b << 7) | 0x1f`,
    characters `(c << 8) | 0x0f`, and the empty list `0x2f`.
  - The primitives are `add1`, `sub1`, `integer->char`, `char->integer`, `zero?`, `null?`,
    `not`, `integer?`, `boolean?`, `+`, `-`, `cons`, `car` and `cdr`.
  - The special forms are `let` and `if`.
  - Stack slots are `[rsp-si]` with `si` growing by `WORD_SIZE = 4`.
  - Labels come from a global counter.
- **compiler.c** writes machine code bytes directly into a fixed-length buffer through a
  `BufferWriter` cursor. It has its own pieces:
  - an s-expression reader;
  - per-instruction encoders;
  - backpatching of forward jumps;
  - `let`, `if`, `cons`/`car`/`cdr`, and `code`/`labelcall`/`labels` procedures;
  - stack slots at `[rsp+si]`, with `si` going down by 8 from -8.

The Dafny project follows the two programs file by file. Modules whose names start with
`Py` model compiler.py, and modules whose names start with `C` model compiler.c.

**compiler.py**
- `PyValues` has the value encoder `imm` and the tag arithmetic.
- `PyCompiler` has:
  - the instruction lines;
  - the primitive table;
  - pure state-transformer specifications (`ExprSt`, `LetSt`, `IfSt`, …);
  - the class `Emitter`, whose fields are the output stream and `LABEL_COUNTER`, and whose
    methods mirror every `prim_*` and `compile_*` function. Each method is proved to
    produce exactly the state its specification function describes.
- `PyProperties` proves that compilation is compositional. It also proves a label and
  stack discipline for all inputs.
- `PyLayout` proves the shape of the code for each form. `PyGolden` proves the unit tests'
  expected outputs from those shapes.

**compiler.c**
- `CBytes` covers the C integer conversions and the little-endian words. `CX86` covers the
  instruction encoders as byte functions, together with a reference instruction-length
  decoder.
- `CAst` holds the tree, the accessors and the environments.
- `CReader` has the reader, as specification functions and as the imperative loops of the
  source. `CReaderProperties` proves its behaviour.
- `CWriter` has the class `BufferWriter`. It wraps an `array<byte>` and a cursor, and
  provides the byte, word and array writes, the backpatch and every instruction encoder.
- `CCodegen` gives the bytes and status of every `AST_compile_*` function as pure functions.
- `CCompiler` has the imperative methods that write those bytes through a `BufferWriter`,
  backpatching as the source does. Each is proved to write exactly its specification's
  bytes.
- `CProperties` proves the compilers' promises for all inputs:
  - status codes;
  - where jumps and calls land;
  - where `let` and `code` put their bindings.
- `CGolden` proves the byte-level expectations of the C unit tests.

Both sources state some things differently from what they do. In each case the model
follows the code:

- **Heap bump in compiler.py.** `prim_cons` (compiler.py:142) bumps `rsi` by
  `WORD_SIZE = 4`, and the model follows this (`PyGolden.GoldenCons`). Its test
  (compiler_test.py:138) expects `add rsi, 8`.
- **Nested cons.** In both versions a nested `cons` overwrites `[rsi]` before the heap
  pointer moves (`PyGolden.NestedConsClobbers`, `CGolden.NestedConsClobbers`).
- **Strings are characters in compiler.py.** The tests read variables as `sexpdata.Symbol`,
  but the code expects `Var`. A string is an immediate, so a string body compiles to a
  character (`PyGolden.GoldenLetStringBody`).
- **`integer->char` in compiler.c.** A comment in the test says `and`, but the code and the
  expected bytes use `or` (`CGolden.GoldenIntegerToChar`).
- **`compile_labelcall_with_one_param`.** The test's expected bytes
  (compiler.c:1612-1614) have no store of the argument and no `call`. The code emits both,
  and `CGolden.GoldenLabelCallOneParam` proves the bytes the code writes. The tests compare
  only as many bytes as the expected array holds, because `EXPECT_EQUALS_BYTES` uses
  `memcmp` over `sizeof arr` (compiler.c:934-937). For the same reason the `code` tests
  never see the second `ret` that `AST_compile_function` adds.
- **`let` status in compiler.c.** `AST_compile_let` returns 0 even when its body returned -1
  (`CProperties.LetStatus`).

## Model

| member | source | states |
|---|---|---|
| PyValues.LowBits | compiler.py:101-118 | `x & (2^k-1)` on Python's unbounded integers lies in `[0, 2^k)`, including for negative `x` |
| PyValues.MasksMatchShifts | compiler.py:10-17 | `FIXNUM_MASK` and `BOOL_MASK` are exactly the low-bit masks below `FIXNUM_SHIFT` and `BOOL_SHIFT` |
| PyValues.ImmEncoding | compiler.py:32-44 | `imm` raises ValueError on a non-immediate; a string is accepted exactly when it is one character long, else TypeError; bools, ints and `[]` are accepted; ints have two clear low bits, bools carry `BOOL_TAG` in seven low bits, chars carry `CHAR_TAG` in eight, `[]` is `NIL_TAG` |
| PyValues.CharWordBits | compiler.py:39-41 | an encoded char has low two bits 3, low seven bits 15, low byte `CHAR_TAG`, and shifting right by 8 gives back the code point |
| PyValues.FixnumWordBits | compiler.py:37-38 | an encoded int has clear tag bits, shifting back recovers it, and it never carries the boolean tag |
| PyValues.ImmRoundTrip | compiler.py:32-44 | every immediate `imm` accepts is decoded back to itself from its tag bits alone (the encoding is unambiguous) |
| PyValues.TypePredicatesAgree | compiler.py:101-118 | an encoded word passes the `integer?` mask test exactly when it encodes an int, and the `boolean?` test exactly when it encodes a bool; so chars and `[]` fail both |
| PyValues.Imm | compiler.py:32-44 | `imm`: the word of an immediate, or the ValueError/TypeError it raises; its properties are PyValues.ImmEncoding and PyValues.ImmRoundTrip |
| PyCompiler.ExprSt | compiler.py:225-245 | `compile_expr` as a function from the label counter to the lines written, the new counter and the error; PyProperties.Compositional and PyCompiler.Emitter.CompileExpr tie it to the emitter |
| PyCompiler.DispatchSt | compiler.py:229-245 | the shape dispatch of `compile_expr` (primcall, variable, `let`, `if`, error); see PyLayout.PrimDispatch, PyLayout.LetDispatch, PyLayout.NoShapeValueError |
| PyCompiler.VarSt | compiler.py:232-236 | a variable load from the stack slot the environment gives; see PyLayout.VarLoad |
| PyCompiler.PrimcallSt | compiler.py:173-176 | the table lookup and arity check of `emit_primcall`; see PyLayout.TableNames, PyLayout.PrimArityError |
| PyCompiler.UnarySt | compiler.py:51-118 | the one-operand primitives; see PyLayout.UnaryLayout |
| PyCompiler.BinarySt | compiler.py:121-132 | `binplus` and `binminus`; see PyLayout.BinaryLayout, PyLayout.NoClobber |
| PyCompiler.BinaryLeftSt | compiler.py:124-125 | the store of the right operand and the left operand one slot deeper; see PyLayout.BinaryLeftLayout |
| PyCompiler.ConsSt | compiler.py:135-142 | `prim_cons`; see PyLayout.ConsLayout |
| PyCompiler.ConsCdrSt | compiler.py:137-142 | the car store, the cdr and the heap bump of `prim_cons`; see PyLayout.ConsLayout |
| PyCompiler.LetSt | compiler.py:183-192 | `compile_let`; see PyLayout.LetEmpty, PyLayout.LetFirstLayout, PyLayout.LetSequential |
| PyCompiler.IfSt | compiler.py:212-222 | `compile_if`; see PyLayout.IfLayout, PyLayout.IfLabelsFresh |
| PyCompiler.IfThenSt | compiler.py:216-222 | the jump to the else label and the consequent; see PyLayout.IfThenLayout |
| PyCompiler.IfElseSt | compiler.py:219-222 | the alternative between the two labels; see PyLayout.IfElseLayout |
| PyCompiler.ProgramSt | compiler.py:248-259 | `compile_program`; see PyLayout.ProgramLayout, PyLayout.ProgramWellFormed |
| PyCompiler.Emitter.constructor | compiler.py:195 | a fresh emitter has an empty stream and the label counter at -1 |
| PyCompiler.Emitter.Emit1 | compiler.py:6-7 | `emit` appends exactly one line and changes nothing else |
| PyCompiler.Emitter.EmitLines | compiler.py:76-80 | a run of `emit` calls appends the lines in order |
| PyCompiler.Emitter.UniqueLabel | compiler.py:198-201 | the counter goes up by exactly one, the label returned is the new counter, and the stream is unchanged |
| PyCompiler.Emitter.EmitLabel | compiler.py:204-205 | one label line is appended |
| PyCompiler.Emitter.CompileExpr | compiler.py:225-245 | the new stream, counter and exception are exactly those of `ExprSt`: immediate, primitive call, variable, `let`, `if`, or ValueError |
| PyCompiler.Emitter.EmitPrimcall | compiler.py:173-176 | the operator is looked up in the table and applied to the operands; a wrong operand count raises TypeError |
| PyCompiler.Emitter.PrimUnary | compiler.py:51-118 | each one-operand primitive compiles its operand, then appends exactly its own lines |
| PyCompiler.Emitter.PrimBinary | compiler.py:121-132 | right operand at `si`, stored at `[rsp-si]`, left operand at `si + 4`, then add or sub with `[rsp-si]` |
| PyCompiler.Emitter.PrimCons | compiler.py:135-142 | car, store to `[rsi]`, cdr at the same `si`, store to `[rsi+4]`, tag the pointer with 1, bump rsi by 4 |
| PyCompiler.Emitter.CompileLet | compiler.py:183-192 | the state of `LetSt`; the caller's environment is left as it was, because of the copy |
| PyCompiler.Emitter.CompileIf | compiler.py:212-222 | the state of `IfSt`: both labels taken first, then cond, `cmp rax, 0x1f`, `je`, consequent, `jmp`, else label, alternative, end label |
| PyCompiler.Emitter.CompileBranches | compiler.py:214-222 | the part of `compile_if` after the labels yields the state of `IfSt` |
| PyCompiler.Emitter.CompileProgram | compiler.py:248-259 | prologue, the expression at `si = 4` under the given or an empty environment, then `ret` unless it raised |
| PyProperties.Compositional | compiler.py:225-245 | compiling after any code keeps that code and appends exactly what compiling alone emits, with the same labels and outcome |
| PyProperties.CodeConcat | compiler.py:6-7 | the labels, jump targets and stack stores of concatenated output are those of the parts |
| PyProperties.DisciplineExpr | compiler.py:195-245 | for every input, the counter never goes back; every label is fresh and defined once; every jump targets a label the code defines; every stack store is at `si` or deeper |
| PyLayout.TableNames | compiler.py:155-170 | `PRIMITIVE_TABLE` has exactly one entry per primitive, under its name |
| PyLayout.ImmediateCode | compiler.py:226-228 | an immediate is one `mov rax` of its encoding, or `imm`'s error, at any `si` |
| PyLayout.VarLoad | compiler.py:232-236 | a variable is one load from `env[name]` whatever `si`; an unbound name raises KeyError and emits nothing |
| PyLayout.NoShapeValueError | compiler.py:245 | a tree no case matches raises ValueError and emits nothing |
| PyLayout.ListHeadTypeError | compiler.py:47-48 | a list of two or more items headed by a list raises TypeError (the head is unhashable), even if it would be a `let` or `if` |
| PyLayout.PrimDispatch | compiler.py:229-231 | a list of two or more items headed by a primitive's name is compiled by `emit_primcall` |
| PyLayout.PrimArityError | compiler.py:173-176 | a primitive with the wrong number of operands raises TypeError and emits nothing |
| PyLayout.UnaryLayout | compiler.py:51-118 | a one-operand primitive's code is its operand's code followed by its own lines |
| PyLayout.BinaryLayout | compiler.py:121-132 | `+`/`-`: right code at `si`, store `[rsp-si]`, left code at `si+4`, then the add/sub with `[rsp-si]`; the left code never stores to `[rsp-si]` |
| PyLayout.BinaryDispatch | compiler.py:155-172 | `+` and `-` with two operands go to `prim_binplus` and `prim_binminus` |
| PyLayout.BinaryLeftLayout | compiler.py:124-125 | the left operand after the right one was saved |
| PyLayout.NoClobber | compiler.py:121-125 | code compiled at `si + 4` never stores to `[rsp-si]`, so the saved right operand survives |
| PyLayout.ConsLayout | compiler.py:135-142 | car code, `[rsi]` store, cdr code at the same `si`, `[rsi+4]` store, tag, bump by 4 |
| PyLayout.IfElseLayout | compiler.py:219-222 | the tail of an `if`: the jump, the else label, the else code, the end label |
| PyLayout.IfThenLayout | compiler.py:216-222 | the then branch followed by that tail |
| PyLayout.IfLayout | compiler.py:212-222 | `(if c t e)`: labels `n+1` and `n+2` are taken, the condition runs with counter `n+2`, then the comparison with the false word and the jumps around the branches |
| PyLayout.IfLabelsFresh | compiler.py:198-222 | the two labels of an `if` are distinct, and no code inside it defines either |
| PyLayout.TableNamesNone | compiler.py:155-172 | `let`, `if` and the other special strings are not primitive names |
| PyLayout.LetEmpty | compiler.py:184-186 | `(let () body)` compiles as `body` |
| PyLayout.LetFirstLayout | compiler.py:186-192 | first binding: its expression at `si`, the store to `[rsp-si]`, then the rest at `si+4` with the name bound to `si` |
| PyLayout.LetDispatch | compiler.py:237-240 | a three-item list headed by `let` is compiled by `compile_let` |
| PyLayout.LetNestedLayout | compiler.py:183-192 | a `let` of one binding around a `let` of the rest |
| PyLayout.LetSequential | compiler.py:183-192 | `let` binds sequentially: a list of bindings compiles as its first binding around a `let` of the rest, so each expression sees the names bound before it |
| PyLayout.ImmediateRun | compiler.py:226-228 | an immediate that encodes, compiled on its own |
| PyLayout.ProgramLayout | compiler.py:248-259 | a whole program is the prologue, the expression's code at `si = 4`, and `ret` |
| PyLayout.ProgramWellFormed | compiler.py:248-259 | a program that compiles has distinct non-negative labels, only closed jumps, and stores only at `si >= 4` |
| PyGolden.FixnumWord | compiler_test.py:22-26 | a fixnum word is four times its value |
| PyGolden.OtherWords | compiler_test.py:16-32 | the words of `#t`, `#f`, `'x'` and `[]` |
| PyGolden.GoldenImmediates | compiler_test.py:16-32 | the six immediate tests, each one `mov rax` |
| PyGolden.GoldenPlus | compiler_test.py:34-58 | `(+ m n)` at any `si`, as the two `+` tests expect |
| PyGolden.GoldenNestedPlus | compiler_test.py:60-75 | `(+ 1 (+ 2 3))` reuses slot `si` |
| PyGolden.GoldenVar | compiler_test.py:77-80 | a variable at offset 4 is loaded from `[rsp-4]` |
| PyGolden.GoldenLet | compiler_test.py:82-106 | `(let ((x 3)) x)` at any `si` |
| PyGolden.GoldenLetStringBody | compiler_test.py:82-93 | the same test with the body read as the string `"x"` compiles to the char `x` |
| PyGolden.GoldenIf | compiler_test.py:108-124 | `(if #t 3 4)` with labels L0 and L1 |
| PyGolden.GoldenCons | compiler.py:135-142 | `(cons m n)` with the bump by 4 the code performs |
| PyGolden.GoldenCar | compiler_test.py:143-153 | `(car 3)` loads `[rax-1]` |
| PyGolden.GoldenCdr | compiler_test.py:155-167 | `(cdr 3)` loads `[rax+3]` |
| PyGolden.GoldenNestedCons | compiler.py:135-142 | `(cons 1 (cons 2 3))` line by line |
| PyGolden.NestedConsClobbers | compiler.py:136-139 | the inner cons stores to `[rsi]` with no bump in between, after the outer car was stored there |
| PyGolden.GoldenProgram | compiler.py:248-259 | a whole program: prologue, expression at `si = 4`, `ret` |
| CBytes.U32 | compiler.c:130-134 | the 32-bit two's-complement pattern lies in `[0, 2^32)` and agrees with the value modulo 2^32 |
| CBytes.Wrap32 | compiler.c:103 | the conversion to `int32_t` lies in the `int32_t` range and agrees with the value modulo 2^32 |
| CBytes.ToInt8 | compiler.c:233-241 | the conversion to `int8_t` lies in `[-128, 128)` and agrees with the value modulo 256 |
| CBytes.Le32RoundTrip | compiler.c:130-134 | the four bytes `Buffer_write32` writes decode back to the value's 32-bit pattern |
| CBytes.Le32Signed | compiler.c:130-134 | an `int32_t` is recovered exactly from its four bytes |
| CBytes.Le32Injective | compiler.c:130-134 | two integers write the same bytes exactly when they agree modulo 2^32 |
| CBytes.Le32Wrap | compiler.c:101-109 | a value and its `int32_t` conversion write the same bytes |
| CBytes.FixnumWord | compiler.c:34-38 | a fixnum word has clear tag bits, and a fixnum in the 30-bit range is `4f` and recovered by shifting back |
| CBytes.BoolWords | compiler.c:40-42 | `#t` is 0x9f and `#f` is 0x1f; both carry the boolean tag and differ only in bit 7 |
| CBytes.CharWord | compiler.c:44-46 | a char word has the char tag in its low byte and the character above it |
| CBytes.EncodeDisp | compiler.c:193-197 | the byte, read back as `int8_t`, is the displacement |
| CBytes.EncodeDisp32 | compiler.c:327-331 | the unsigned 32-bit pattern of the displacement, which converts back to it |
| CX86.IncReg | compiler.c:155-159 | `inc reg`: `48 ff c0+r`; one instruction by CX86.IncDecOneInstruction |
| CX86.DecReg | compiler.c:161-165 | `dec reg`: `48 ff c8+r`; one instruction by CX86.IncDecOneInstruction |
| CX86.MovRegImm32 | compiler.c:167-170 | `mov reg, imm32`: `b8+r` and the immediate; one instruction by CX86.ArithmeticOneInstruction |
| CX86.AddRegImm32 | compiler.c:172-182 | `add reg, imm32`: `05` for rax, `81 c0+r` otherwise; one instruction by CX86.ArithmeticOneInstruction |
| CX86.AddRegStack | compiler.c:184-191 | `add reg, [rsp+off]`; its operand form is CX86.StackOneInstruction |
| CX86.MovRaxToRegDisp | compiler.c:199-205 | `mov [reg+disp], rax`; see CX86.DisplacementOneInstruction |
| CX86.MovRegDispToRax | compiler.c:207-213 | `mov rax, [reg+disp]`; see CX86.DisplacementOneInstruction |
| CX86.SubRegImm32AsWritten | compiler.c:215-225 | the source's `sub reg, imm32`, with 0x83 for a register other than rax; CX86.SubAsWrittenSplits shows it is not one instruction |
| CX86.SubRegImm32 | compiler.c:215-225 | `sub reg, imm32` with the 0x81 opcode the source's comment names; one instruction by CX86.ArithmeticOneInstruction |
| CX86.SubRaxForms | compiler.c:215-225 | on rax both forms are `2d` and the immediate, so `sub1` (compiler.c:681-684) is unaffected by the finding below |
| CX86.MovRegReg | compiler.c:227-231 | `mov dst, src`; see CX86.MoveOneInstruction |
| CX86.MovRegToStack | compiler.c:233-241 | `mov [rsp+off], reg`; see CX86.StackOneInstruction |
| CX86.MovStackToReg | compiler.c:243-251 | `mov reg, [rsp+off]`; see CX86.StackOneInstruction |
| CX86.ShlReg | compiler.c:253-260 | `shl reg, bits`; see CX86.ShiftOneInstruction |
| CX86.AndRegImm32 | compiler.c:262-274 | `and reg, imm32`; see CX86.LogicOneInstruction |
| CX86.OrRegImm32 | compiler.c:276-288 | `or reg, imm32`; see CX86.LogicOneInstruction |
| CX86.CmpRegImm32 | compiler.c:290-303 | `cmp reg, imm32`; see CX86.LogicOneInstruction |
| CX86.SetccReg | compiler.c:305-310 | `sete al`; see CX86.FixedOneInstruction |
| CX86.JeImm32 | compiler.c:313-318 | `je rel32`; see CX86.FixedOneInstruction and CProperties.WordTarget |
| CX86.JmpImm32 | compiler.c:321-325 | `jmp rel32`; see CX86.FixedOneInstruction and CProperties.WordTarget |
| CX86.CallImm32 | compiler.c:334-338 | `call rel32`, displacement less five; see CX86.FixedOneInstruction and CProperties.CallWord |
| CX86.Ret | compiler.c:340 | `ret`; see CX86.FixedOneInstruction |
| CX86.InstrLength | compiler.c:155-340 | an independent reading of instruction lengths (REX, opcode, ModR/M, SIB, displacement, immediate) that the `OneInstruction` lemmas check every encoder against |
| CX86.Reg | compiler.c:136-146 | the register numbers are 0..7, as in the ModR/M fields |
| CX86.ModRMFields | compiler.c:199-205 | the three fields of a ModR/M byte are recovered from it |
| CX86.RexLength | compiler.c:172-182 | a REX prefix adds one byte to the instruction after it |
| CX86.ModRMLength | compiler.c:172-182 | an opcode with a ModR/M byte takes the opcode, the operand bytes and the immediate |
| CX86.RegisterOperand | compiler.c:227-231 | a register-direct ModR/M byte takes one byte |
| CX86.IncDecOneInstruction | compiler.c:155-165 | `inc` and `dec` are one instruction, 0xff /0 and 0xff /1 |
| CX86.ArithmeticOneInstruction | compiler.c:167-182 | `mov r32, imm32`, `add` and the corrected `sub` each decode as exactly one instruction on any register |
| CX86.WideImmediateOneInstruction | compiler.c:262-303 | the shared shape of `and`/`or`/`cmp` decodes as one instruction |
| CX86.LogicOneInstruction | compiler.c:262-303 | `and` (/4), `or` (/1) and `cmp` (/7) each write exactly one instruction |
| CX86.MoveOneInstruction | compiler.c:227-231 | `mov dst, src` is `48 89` with the source in reg and the destination in r/m, one instruction |
| CX86.ShiftOneInstruction | compiler.c:253-260 | `shl` is 0xc1 /4 with a one-byte count, one instruction |
| CX86.StackOperand | compiler.c:233-241 | the `[rsp+disp8]` operand is mod 01, r/m 100, a SIB with base rsp and no index, then the displacement |
| CX86.StackForm | compiler.c:184-191 | the shared shape of the stack encoders is one instruction |
| CX86.StackOneInstruction | compiler.c:233-251 | the three stack encoders address `[rsp+offset]` and write one instruction each |
| CX86.OperandForms | compiler.c:199-213 | the lengths of the two memory forms with a one-byte displacement |
| CX86.DisplacementOperand | compiler.c:199-205 | a `[reg+disp8]` operand with rax in reg is a ModR/M byte and a displacement unless the base is rsp |
| CX86.DisplacementForm | compiler.c:199-213 | the shared shape of the displacement encoders |
| CX86.DisplacementOneInstruction | compiler.c:199-213 | `mov [dst+disp8], rax` and `mov rax, [dst+disp8]` are one instruction for any base but rsp |
| CX86.FixedOneInstruction | compiler.c:305-340 | `sete`, `je`, `jmp`, `call` and `ret` are each one instruction |
| CX86.SubAsWrittenSplits | compiler.c:215-225 | the as-written subtraction from a non-rax register decodes as a three-byte instruction followed by stray bytes |
| CAst.NewCons | compiler.c:438-448 | two missing halves make nil; a single missing half is refused |
| CAst.Car | compiler.c:457-461 | `AST_car` of a cons is its first half; nil or an atom is refused |
| CAst.Cdr | compiler.c:463-467 | `AST_cdr` of a cons is its second half; nil or an atom is refused |
| CAst.Operand1 | compiler.c:576 | the first element of an argument list, or failure on a shorter list |
| CAst.Operand2 | compiler.c:577 | the second element |
| CAst.Operand3 | compiler.c:578 | the third element |
| CAst.ListOperands | compiler.c:576-578 | the operands of a proper list are its elements, and a too-short list has none |
| CAst.LookupBindings | compiler.c:382-392 | `Env_lookup` finds a name exactly when the environment binds it, and returns the innermost binding |
| CAst.Shadowing | compiler.c:376-392 | a new node hides every older binding of its name and leaves every other lookup as it was |
| CAst.WithLabels | compiler.c:557-562 | a context with new labels and the same locals |
| CAst.WithLocals | compiler.c:564-569 | a context with new locals and the same labels |
| CCodegen.Expr | compiler.c:778-803 | the bytes and status of `AST_compile_expr`; see CProperties.ExprStatus, CProperties.AtomCode, CCompiler.CompileExpr |
| CCodegen.Call | compiler.c:672-776 | the dispatch of `AST_compile_call` on the callee's name; see CProperties.CallStatus, CProperties.UnboundLabel |
| CCodegen.Unary | compiler.c:676-734 | a primitive of one operand: its operand, then its tail; see CGolden.UnaryTails, CCompiler.CompileUnary |
| CCodegen.Plus | compiler.c:703-708 | `+`: the second operand, its spill, the first operand and the add; see CGolden.PlusCode, CCompiler.CompilePlus |
| CCodegen.Let | compiler.c:580-599 | `AST_compile_let`; see CProperties.LetStatus, CProperties.FrameSlot, CProperties.LetBody |
| CCodegen.If | compiler.c:606-619 | `AST_compile_if`; see CProperties.IfJumps, CProperties.IfJeLayout, CProperties.IfJmpLayout |
| CCodegen.Cons | compiler.c:621-635 | `AST_compile_cons`; see CGolden.ConsExpr, CGolden.NestedConsClobbers |
| CCodegen.Code | compiler.c:637-652 | `AST_compile_code`; see CProperties.CodeStatus, CProperties.CodeBody |
| CCodegen.LabelCall | compiler.c:654-670 | `AST_compile_labelcall`; see CProperties.LabelCallStatus, CProperties.LabelCallTarget |
| CCodegen.Function | compiler.c:806-813 | `AST_compile_function`: the expression and a `ret`; see CGolden.FunctionRet |
| CCodegen.Entry | compiler.c:815-819 | `AST_compile_entry`; see CCompiler.CompileEntry |
| CCodegen.Labels | compiler.c:855-875 | `AST_compile_labels`; see CProperties.LabelsStatus, CProperties.LabelsEntry |
| CCodegen.JumpDisplacement | compiler.c:857-861 | the displacement backpatched, once the label codes are written, into the `jmp` that `AST_compile_prog` opens with (compiler.c:893); see CProperties.ProgJump |
| CCodegen.Prog | compiler.c:886-899 | `AST_compile_prog`; see CProperties.ProgStatus, CProperties.ProgJump |
| CCodegen.StackOffset | compiler.c:233-251 | the `int8_t` truncation of a stack index, accepted only when negative |
| CReader.DigitsEnd | compiler.c:476-480 | the digit run ends at a non-digit, and every position before it is a digit |
| CReader.AtomEnd | compiler.c:491-494 | the atom ends after at most the limit, and every character before it is an atom character |
| CReader.SkipSpace | compiler.c:515-517 | the first position that is not whitespace, and everything skipped is whitespace |
| CReader.ReadNumber | compiler.c:473-482 | a fixnum whose value is the digit run's value wrapped to `int`, ending after the run |
| CReader.ReadAtom | compiler.c:488-497 | an atom of at most 32 atom characters |
| CReader.ReadRec | compiler.c:513-529 | after whitespace: a number, an atom or a list, or `NULL` for any other character |
| CReader.ReadList | compiler.c:501-511 | nil at `)`, else an element and the rest; a missing element or rest aborts |
| CReader.Read | compiler.c:531-534 | one expression from the start of the string |
| CReader.Wrap32Shift | compiler.c:477-478 | adding a multiple of 2^32 does not change the `int32_t` conversion |
| CReader.Wrap32Step | compiler.c:477-478 | `value *= 10; value += d` on the wrapped value gives the wrapped exact value |
| CReader.Wrap32Exact | compiler.c:475-481 | a value below 2^31 is read exactly |
| CReader.DecimalSnoc | compiler.c:476-480 | one more digit extends the value of a digit run |
| CReader.ReadNumberLoop | compiler.c:473-482 | the loop returns `ReadNumber`'s fixnum and end position |
| CReader.ReadAtomLoop | compiler.c:488-497 | the loop through a 33-slot buffer returns `ReadAtom`'s atom and end position |
| CReader.SkipSpaceLoop | compiler.c:515-517 | the whitespace loop stops at `SkipSpace` |
| CReader.ReadRecRec | compiler.c:513-529 | `Reader_read_rec` returns `ReadRec`'s result |
| CReader.ReadListRec | compiler.c:501-511 | `Reader_read_list` returns `ReadList`'s result |
| CReader.ReadString | compiler.c:531-534 | `Reader_read` returns `Read`'s result |
| CReaderProperties.SkipsWhitespace | compiler.c:515-517 | leading whitespace does not change what is read |
| CReaderProperties.ReadsNumber | compiler.c:518-520 | a digit starts a fixnum of the whole digit run, wrapped, and exact below 2^31 |
| CReaderProperties.ReadsAtom | compiler.c:521-523 | an atom character starts an atom: the longest run of atom characters, cut at 32 |
| CReaderProperties.ReadsList | compiler.c:524-527 | `(` starts a list that ends at the matching `)` |
| CReaderProperties.ReadsNull | compiler.c:528 | any other first character reads as `NULL` |
| CReaderProperties.ListShape | compiler.c:501-511 | a list is nil at `)`, else its first element then the rest; an element that reads as `NULL` aborts |
| CReaderProperties.SpaceBeforeCloseAborts | compiler.c:501-517 | whitespace before a closing parenthesis aborts the reader |
| CReaderProperties.GoldenNumber | compiler.c:1648-1655 | `"1234"` reads as the fixnum 1234 |
| CReaderProperties.GoldenLeadingWhitespace | compiler.c:1657-1664 | `"   1234"` reads as the fixnum 1234 |
| CReaderProperties.GoldenAtom | compiler.c:1666-1673 | `"hello"` reads as the atom `hello` |
| CReaderProperties.GoldenNil | compiler.c:1675-1682 | `"()"` reads as nil |
| CReaderProperties.SingleDigit | compiler.c:473-482 | a lone digit reads as its value |
| CReaderProperties.GoldenList | compiler.c:1684-1699 | `"(1 2 3)"` reads as the three-element list of those numbers |
| CReaderProperties.GoldenNestedList | compiler.c:1701-1715 | `"((hello world) (foo bar))"` reads as a list of two lists of two atoms |
| CReaderProperties.NestedPairs | compiler.c:501-529 | `((a b) (c d))` with words `a` to `d` reads as the list of the two two-atom lists, ending after its last `)` |
| CReaderProperties.OuterList | compiler.c:501-529 | `((` then a first list then the rest of the elements reads as the pair of the first list and the rest |
| CReaderProperties.LastList | compiler.c:501-529 | a space, a list and `)` end a list with that list as its last element |
| CReaderProperties.TwoWords | compiler.c:501-511 | `a b)` inside a list reads as the two atoms, ending after the `)` |
| CReaderProperties.TwoAtoms | compiler.c:488-511 | two runs of atom characters split by a space and closed by `)` read as a two-atom list |
| CReaderProperties.ListCons | compiler.c:501-511 | an element read at a position that is not `)`, followed by a list, reads as their pair |
| CReaderProperties.ListOpen | compiler.c:515-527 | a `(` after whitespace reads as the elements of the list after it |
| CReaderProperties.WordAt | compiler.c:488-497 | a run of at most 32 atom characters after whitespace, ended by a non-atom character, reads as that atom |
| CReaderProperties.AtomEndAt | compiler.c:491-494 | the atom scan stops exactly at the first non-atom character |
| CReaderProperties.PairTextLayout | compiler.c:501-511 | where the two words, the space and the `)` lie in `a b)` |
| CReaderProperties.NestedLayout | compiler.c:501-529 | where the two inner lists and the parentheses lie in `((a b) (c d))` |
| CWriter.ExtendedTrans | compiler.c:124-128 | two writes in a row are one write of both |
| CWriter.PatchOnly | compiler.c:101-109 | a patch writes exactly its four bytes and changes no other byte |
| CWriter.PatchSplice | compiler.c:101-109 | backpatching a placeholder inside written code is writing the code with the patched word in its place |
| CWriter.PatchExtended | compiler.c:101-109 | a backpatch below the cursor commutes with a later write |
| CWriter.BufferWriter.constructor | compiler.c:93-96 | the cursor starts at 0 over the given buffer |
| CWriter.BufferWriter.Write8 | compiler.c:119-122 | needs room; stores the byte at the old cursor, moves the cursor by exactly 1, changes no other byte |
| CWriter.BufferWriter.WriteArr | compiler.c:124-128 | the bytes of `arr`, in order, at the cursor |
| CWriter.BufferWriter.Write32 | compiler.c:130-134 | the four little-endian bytes of the value, cursor moved by 4 |
| CWriter.BufferWriter.Backpatch | compiler.c:101-109 | the four bytes before `posAfterJump` become `pos - posAfterJump`; nothing else changes and the cursor stays |
| CWriter.BufferWriter.IncReg | compiler.c:155-159 | writes exactly `inc reg` at the cursor |
| CWriter.BufferWriter.DecReg | compiler.c:161-165 | writes exactly `dec reg` |
| CWriter.BufferWriter.MovRegImm32 | compiler.c:167-170 | writes `0xb8+dst` and the immediate |
| CWriter.BufferWriter.AddRegImm32 | compiler.c:172-182 | writes `add dst, imm32` (short form on rax) |
| CWriter.BufferWriter.AddRegStack | compiler.c:184-191 | writes `add dst, [rsp+offset]` for a negative offset |
| CWriter.BufferWriter.MovRaxToRegDisp | compiler.c:199-205 | writes `mov [dst+disp], rax` |
| CWriter.BufferWriter.MovRegDispToRax | compiler.c:207-213 | writes `mov rax, [src+disp]` |
| CWriter.BufferWriter.SubRegImm32 | compiler.c:215-225 | writes the bytes the source writes: `2d` and the immediate for rax, `83 e8+r` and the four-byte immediate for any other register (CX86.SubRegImm32AsWritten) |
| CWriter.BufferWriter.MovRegReg | compiler.c:227-231 | writes `48 89 (0xc0 + dst + 8*src)` |
| CWriter.BufferWriter.MovRegToStack | compiler.c:233-241 | writes `mov [rsp+offset], src` for a negative offset |
| CWriter.BufferWriter.MovStackToReg | compiler.c:243-251 | writes `mov dst, [rsp+offset]` for a negative offset |
| CWriter.BufferWriter.ShlReg | compiler.c:253-260 | writes `shl dst, bits` |
| CWriter.BufferWriter.AndRegImm32 | compiler.c:262-274 | writes `and dst, imm32` |
| CWriter.BufferWriter.OrRegImm32 | compiler.c:276-288 | writes `or dst, imm32` |
| CWriter.BufferWriter.CmpRegImm32 | compiler.c:290-303 | writes `cmp dst, imm32` |
| CWriter.BufferWriter.SetccReg | compiler.c:305-310 | writes `setcc` on the sub-register |
| CWriter.BufferWriter.JeImm32 | compiler.c:313-318 | writes `0f 84` and the displacement |
| CWriter.BufferWriter.JmpImm32 | compiler.c:321-325 | writes `e9` and the displacement |
| CWriter.BufferWriter.CallImm32 | compiler.c:334-338 | writes `e8` and `disp - 5` |
| CWriter.BufferWriter.Ret | compiler.c:340 | writes `c3` |
| CCompiler.CompileExpr | compiler.c:778-803 | writes exactly `Expr`'s bytes at the cursor and returns its status |
| CCompiler.EmitUnaryTail | compiler.c:676-734 | writes exactly the tail of a one-operand primitive |
| CCompiler.EmitZeroP | compiler.c:694-701 | writes the five instructions of `zero?` |
| CCompiler.CompileUnary | compiler.c:676-734 | operand, then its tail; the operand's status is ignored |
| CCompiler.CompilePlus | compiler.c:703-708 | writes exactly `Plus`'s bytes: second operand at `si`, stored, first at `si-8`, added |
| CCompiler.CompileCall | compiler.c:672-776 | writes exactly `Call`'s bytes and returns its status |
| CCompiler.CompileLet | compiler.c:580-599 | writes exactly `Let`'s bytes and returns 0 |
| CCompiler.IfParts | compiler.c:606-619 | the three operand codes that `If` assembles |
| CCompiler.CompileIfTest | compiler.c:606-610 | test, `cmp rax, #f`, `je` placeholder |
| CCompiler.CompileIfConsequent | compiler.c:611-613 | consequent and the `jmp` placeholder |
| CCompiler.BackpatchAt | compiler.c:101-109 | a backpatch inside the code written since a point is a write of the patched code |
| CCompiler.CompileIfAlternative | compiler.c:615-617 | the alternative, then the `jmp` backpatched to land after it |
| CCompiler.CompileIfBranches | compiler.c:611-618 | the consequent, its `jmp`, the `je` backpatch, then the alternative |
| CCompiler.CompileIfBody | compiler.c:606-619 | both placeholders are written and backpatched: the bytes are exactly `If`'s |
| CCompiler.CompileIf | compiler.c:606-619 | writes exactly `If`'s bytes and returns 0 |
| CCompiler.ConsParts | compiler.c:621-635 | the two operand codes that `Cons` assembles |
| CCompiler.CompileConsField | compiler.c:621-630 | an operand stored at `[rsi+disp]` |
| CCompiler.EmitConsTail | compiler.c:631-634 | the tagged pointer and the heap bump |
| CCompiler.CompileCons | compiler.c:621-635 | writes exactly `Cons`'s bytes and returns 0 |
| CCompiler.CompileCode | compiler.c:637-652 | writes exactly `Code`'s bytes and returns the body's status |
| CCompiler.CompileLabelCall | compiler.c:654-670 | writes exactly `LabelCall`'s bytes: arguments stored, then the `call` |
| CCompiler.CompileFunction | compiler.c:806-813 | the expression at -8, then `ret` unless it failed |
| CCompiler.CompileEntry | compiler.c:815-819 | `mov rsi, rdi`, then the function |
| CCompiler.LabelsNilParts | compiler.c:857-861 | `Labels` with no bindings is the entry code |
| CCompiler.LabelsPairParts | compiler.c:862-874 | `Labels` with a first binding is its code, then the rest |
| CCompiler.LabelsStep | compiler.c:862-874 | a label's code followed by the rest, whose compilation backpatched the entry jump below both |
| CCompiler.CompileLabelsEntry | compiler.c:857-861 | backpatch the jump to the cursor, then the entry code |
| CCompiler.CompileLabels | compiler.c:855-875 | writes exactly `Labels`'s bytes, and the jump is backpatched to the entry code once every label compiled |
| CCompiler.JumpPatched | compiler.c:886-899 | the jump over the label codes after the entry backpatch |
| CCompiler.ProgParts | compiler.c:886-899 | `Prog` is a jump followed by `Labels` at offset 5 |
| CCompiler.CompileProg | compiler.c:886-899 | writes exactly `Prog`'s bytes and returns its status |
| CProperties.ExprStatus | compiler.c:778-803 | `AST_compile_expr` returns 0 or -1 and nothing else |
| CProperties.CallStatus | compiler.c:672-776 | `AST_compile_call` returns 0 or -1 |
| CProperties.LetStatus | compiler.c:580-599 | `AST_compile_let` always returns 0, dropping its body's status |
| CProperties.CodeStatus | compiler.c:637-652 | `AST_compile_code` returns 0 or -1 |
| CProperties.LabelCallStatus | compiler.c:654-670 | `AST_compile_labelcall` returns 0 or -1 |
| CProperties.LabelsStatus | compiler.c:855-875 | `AST_compile_labels` returns 0 or -1, and reaches the entry code whenever it returns 0 |
| CProperties.ProgStatus | compiler.c:886-899 | `AST_compile_prog` returns 0 or -1 |
| CProperties.AtomCode | compiler.c:789-798 | a name compiles to one load the same at any `si` and position; unbound emits nothing and returns -1; a non-negative `int8_t` slot aborts |
| CProperties.UnboundLabel | compiler.c:761-769 | a `labelcall` of an unbound label emits nothing and returns -1 |
| CProperties.WordTarget | compiler.c:313-325 | a displacement word in range decodes to its displacement |
| CProperties.IfTestLayout | compiler.c:606-610 | the `if` code starts with the test and `cmp rax, #f; je` |
| CProperties.IfJeLayout | compiler.c:609-614 | the `je` lands on the first byte of the alternative, skipping the consequent and its `jmp` |
| CProperties.IfJmpLayout | compiler.c:612-618 | the `jmp` lands just after the alternative, which follows it |
| CProperties.IfJumps | compiler.c:606-619 | for every `if`: test, `cmp`, a `je` landing on the alternative, consequent, a `jmp` landing at the end |
| CProperties.SuffixTarget | compiler.c:313-338 | the last rel32 word of a code ending in another code is that code's, shifted |
| CProperties.Wrap32InRange | compiler.c:658 | a value in the `int32_t` range is its own conversion |
| CProperties.CallWord | compiler.c:327-338 | the `call` displacement word decodes to the displacement |
| CProperties.CallLands | compiler.c:654-661 | the `call` ending a `labelcall` lands on the label's code |
| CProperties.LabelCallTarget | compiler.c:654-670 | a `labelcall` returning 0 ends with a `call` that lands on the label's code position |
| CProperties.LabelsEntry | compiler.c:855-875 | the entry code is reached inside the code, compiled with the label environment built from the bindings |
| CProperties.ProgJump | compiler.c:886-899 | a program returning 0 starts with a `jmp` backpatched to land on its entry code |
| CProperties.FrameOutside | compiler.c:580-599 | names outside a frame are found as before |
| CProperties.FrameSlot | compiler.c:580-599 | name k of a frame is at `si - 8k` unless a later name shadows it |
| CProperties.LetPairParts | compiler.c:580-599 | the pieces a `let` with a first binding assembles |
| CProperties.LetBody | compiler.c:580-599 | the body comes last, with binding k at `si - 8k`, at the index after the last binding |
| CProperties.FrameStep | compiler.c:593-597 | the frame of a `let` is its first slot followed by the frame of the rest |
| CProperties.CodeBody | compiler.c:637-652 | formal k is at `si - 8k`; the code is the body at the next index, then `ret` unless the body returned -1 |
| CGolden.SmallFixnum | compiler.c:167-170 | a fixnum below 64 loads as `mov eax, 4n` |
| CGolden.Slot | compiler.c:233-251 | the three stack instructions at a one-byte index |
| CGolden.UnaryTails | compiler.c:676-734 | the bytes each one-operand primitive appends |
| CGolden.PlusCode | compiler.c:703-708 | `(+ left right)` at a one-byte stack index |
| CGolden.FunctionRet | compiler.c:806-813 | `AST_compile_function` appends `ret` |
| CGolden.GoldenMovImm32 | compiler.c:980-990 | `mov eax, 42` and `mov ecx, 42` are `b8`/`b9` and `2a 00 00 00` |
| CGolden.GoldenMovRegReg | compiler.c:1000-1016 | `mov rax, rax`, `mov rax, rsi` and `mov rdi, rbp` are `48 89 c0`, `48 89 f0` and `48 89 ef` |
| CGolden.GoldenReturnHeapAddress | compiler.c:1399-1407 | `mov rax, rdi` then `ret` are the four bytes `48 89 f8 c3` the test expects |
| CGolden.GoldenAdd1Sub1 | compiler.c:1071-1084 | the bytes of `(sub1 (add1 5))` and its `ret` |
| CGolden.GoldenSub1Add1 | compiler.c:1086-1099 | the bytes of `(add1 (sub1 5))` and its `ret` |
| CGolden.GoldenAddThree | compiler.c:1117-1141 | the bytes of `(+ 1 (+ 2 3))`, with the inner sum spilled at `[rsp-8]` before the outer add |
| CGolden.GoldenAddFour | compiler.c:1143-1171 | the bytes of `(+ (+ 1 2) (+ 3 4))` |
| CGolden.GoldenZeroPNonZero | compiler.c:1222-1248 | the bytes of `(zero? (sub1 (add1 1)))`: the operand code, then the compare with 0, `sete` and the boolean tagging |
| CGolden.GoldenLetNoBindings | compiler.c:1250-1266 | a `let` with no bindings compiles to its body alone |
| CGolden.FixnumCode | compiler.c:780-784 | a small fixnum compiles to `mov eax, imm32` of its encoding and nothing else |
| CGolden.ConsExpr | compiler.c:621-635 | for operands that compile, `cons` is car, store at `[rsi]`, cdr, store at `[rsi+8]`, then the tail that returns the tagged pointer and bumps `rsi` |
| CGolden.NestedConsStores | compiler.c:621-635 | in `(cons x (cons y z))` the stores of `x` and `y` both go to `[rsi]`, before either bump |
| CGolden.NestedConsClobbers | compiler.c:621-635 | for `(cons 1 (cons 2 3))` the outer car is stored at `[rsi]` and then overwritten by the inner car before `rsi` moves |
| CGolden.GoldenFixnum | compiler.c:1018-1033 | `compile_fixnum` |
| CGolden.GoldenAdd1 | compiler.c:1043-1055 | `compile_primcall_add1` |
| CGolden.GoldenSub1 | compiler.c:1057-1069 | `compile_primcall_sub1` |
| CGolden.GoldenIntegerToChar | compiler.c:1173-1188 | `integer_to_char`: `shl rax, 6; or rax, 0x0f` |
| CGolden.GoldenZeroP | compiler.c:1194-1220 | `zerop_with_zero_returns_true` |
| CGolden.GoldenPlus | compiler.c:1101-1115 | `compile_add_two_ints` |
| CGolden.GoldenUnboundAtom | compiler.c:1293-1298 | status -1 and no code |
| CGolden.GoldenAtomInEnv | compiler.c:1300-1309 | `foo` at -34 loads `[rsp-34]` |
| CGolden.GoldenLet | compiler.c:1268-1291 | `let_with_one_binding` |
| CGolden.GoldenCodeNoParams | compiler.c:1511-1519 | `compile_code_with_no_params` plus the function's `ret` |
| CGolden.GoldenCodeWithParams | compiler.c:1521-1540 | `compile_code_with_params` |
| CGolden.GoldenUnboundLabelCall | compiler.c:1568-1573 | status -1 and no code |
| CGolden.GoldenIf | compiler.c:1311-1397 | `compile_if_test_true` and `_false`: `je +0x19`, `jmp +0x14` |
| CGolden.GoldenCons | compiler.c:1409-1433 | `compile_cons` |
| CGolden.GoldenCarCdr | compiler.c:1435-1495 | `compile_car` and `compile_cdr` |
| CGolden.GoldenEmptyLabels | compiler.c:1497-1509 | `compile_empty_labels` |
| CGolden.GoldenLabelNoCall | compiler.c:1542-1566 | `e9 06 00 00 00` over a six-byte label code |
| CGolden.GoldenLabelCallNoParam | compiler.c:1575-1597 | the `call` at offset 14 reaches offset 5 |
| CGolden.GoldenLabelCallOneParam | compiler.c:1599-1621 | the bytes the code writes for `(labelcall id 5)`, with the argument store and the `call` |

## Left out

- Executable memory (`Buffer_init`, `Buffer_deinit`, `Buffer_make_executable`) calls mmap, munmap and mprotect. The buffer is an `array<byte>` of fixed length instead.
- `Buffer_dump`, the `fprintf` diagnostics of the unbound cases, libtap, `Testing_call_entry`, `run_test`, `Run_from_cstr` and `EXPECT_CALL_EQUALS` are left out. These either print or run the generated code on the processor. No x86 execution is modelled, so the overlap of the `labelcall` argument slot with the return address is not captured either.
- The `compile_with_read` tests run the generated code; they are left out, and only the byte expectations of the other tests are proved.
- Python's `stream.write`, the decimal text of the instructions, the `__main__` block and the external `sexpdata` reader are left out. The stream is a `seq` of instruction values.
- Python values other than bool, int, str, list and `Var` are not modelled. Python ints are unbounded, as in the source.
- `LABEL_COUNTER` is a module global in compiler.py. It is a field of `PyCompiler.Emitter`.
- The C asserts are modelled in two ways:
  - in the specification functions, an assert that fails is `None` (the process aborts);
  - the imperative methods require that their specification is not `None`.
- CCompiler.CompileExpr and the other CCompiler methods require the buffer to have room for what they write. The source asserts this byte by byte.
- The positions of the code buffer are assumed below 2^31, and below `CODE_LIMIT = 2^30` where a displacement is computed. Under that assumption the `size_t` to `int32_t` conversions are exact.
- Stack indices are not wrapped at 32 bits. Only their `int8_t` truncation in the stack encoders is modelled.
- CWriter.BufferWriter.WriteArr takes a sequence of bytes in place of a pointer and a length.
- `isalpha` and `isspace` follow the C locale.
- CReader.ReadNumber: `value *= 10` (compiler.c:477) overflows a signed `int` for a long literal, which is undefined in C. The model wraps it to 32 bits in two's complement.
- CBytes.EncodeFixnum: `f << kFixnumShift` (compiler.c:37) overflows for a fixnum outside 30 bits, which is undefined in C. The model wraps the shifted word to 32 bits in two's complement.
- A `code` formal that is not an atom reads a union member that is not set, which is undefined in C. The model treats it as an abort.
- CWriter.BufferWriter.contents is a ghost mirror of the array, which the contracts use. It is exactly `buf[..]`.

## Findings

| source | as written | input that shows it | evidently intended | confidence | as-written member | corrected member |
|---|---|---|---|---|---|---|
| compiler.c:215-225 | `Buffer_sub_reg_imm32` on a register other than rax writes opcode 0x83, whose immediate is one byte, then a four-byte immediate | `sub ecx, 4` gives `83 e9 04 00 00 00`; the processor reads `83 e9 04` as one instruction and then three stray zero bytes | opcode 0x81 /5 with a four-byte immediate, as the comment beside it names | not executed | CX86.SubAsWrittenSplits | CX86.ArithmeticOneInstruction |
