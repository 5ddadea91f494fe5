/**
 * What `codegen.h` writes, as a sequence of abstract instructions: one
 * `Instr` per line of assembly that the emitter prints. `ExprCode`,
 * `StmtCode`, `AddrCode` and `FnCode` give the lines `emit_expr`,
 * `emit_stmt`, `emit_addr` and one iteration of `emit`'s loop append. The
 * `.loc` debug lines and the fixed text that opens every file are left out.
 */
module Codegen {
  import opened Base
  import opened CodegenAst
  import EmitX86

  type Reg = EmitX86.Reg

  /** Access widths of loads and stores. */
  datatype Width = Byte1 | Word2 | Long4 | Quad8

  /** The condition of a `set<cc> %al`. */
  datatype Cond = Less | LessEq | Equal | NotEqual

  /** Local labels, keyed by node index, and function symbols, keyed by name token. */
  datatype Label =
    | ElseLabel(node: int)     // .L.else.<i>
    | EndLabel(node: int)      // .L.end.<i>
    | WhileStart(node: int)    // .Lwhile_loop_start<i>
    | WhileEnd(node: int)      // .Lwhile_loop_end<i>
    | ReturnLabel(node: int)   // .L.return.<i>
    | FnLabel(tok: nat)        // <name>

  /** The runtime functions the generated code calls. */
  datatype Callee =
    | StringMake | StringConcat | InstanceMake
    | IntPrintln | CharPrintln | BoolPrintln | StringPrintln | InstancePrintln

  datatype Instr =
    | LeaLocal(offset: int)                  // lea -off(%rbp), %rax
    | AddOffset(offset: int, nameTok: nat)   // add $off, %rax # get `member`
    | LeaSymbol(nameTok: nat)                // lea name(%rip), %rax
    | Load(width: Width)                     // movsbl / movswl / mov (%rax), %eax / %rax
    | Store(width: Width)                    // mov %al / %ax / %eax / %rax, (%rdi)
    | Push(reg: Reg)
    | Pop(reg: Reg)
    | MovImm(value: int, dst: Reg, wide: bool)
    | MovReg(src: Reg, dst: Reg)
    | SubImm(value: int, dst: Reg)
    | CallFn(callee: Callee)
    | CallReg(reg: Reg)                      // call *%r10
    | Cqo
    | ZeroRdx                                // xor %rdx, %rdx
    | Idiv                                   // idiv %rdi
    | Imul                                   // imul %rdi, %rax
    | SubRdi                                 // sub %rdi, %rax
    | AddRdi(wide: bool)                     // add %rdi / %edi, %rax / %eax
    | CmpRdi                                 // cmp %rdi, %rax
    | CmpZero                                // cmp $0, %rax
    | SetCond(cond: Cond)                    // set<cc> %al
    | ZeroExtendAl                           // movzb %al, %rax
    | Jmp(target: Label)
    | Je(target: Label)
    | LabelDef(name: Label)
    | SyscallInstr
    | StoreByte(value: int, offset: int)     // movb $v, off(%rax)
    | CfiStartproc | CfiDefCfaOffset | CfiOffsetRbp | CfiDefCfaRegister | CfiEndproc
    | SubRsp(size: int)
    | AddRsp(size: int)
    | StoreLocal(src: Reg, offset: int)      // mov reg, -off(%rbp)
    | Ret
    | Global(nameTok: nat)                   // .global name

  datatype Platform = MacOS | Linux

  /** `syscall_exit`: the number of the `exit` system call. */
  function SyscallExit(pl: Platform): int {
    if pl == MacOS then 0x2000001 else 60
  }

  /** `fn_args`: the System V registers of the first six call arguments. */
  const FN_ARGS: seq<Reg> := [EmitX86.Rdi, EmitX86.Rsi, EmitX86.Rdx, EmitX86.Rcx, EmitX86.R8, EmitX86.R9]

  /** `emit_align_to_16`: the stack size rounded up to the System V alignment. */
  function AlignTo16(n: int): (r: int)
    requires n >= 0
    ensures r % 16 == 0 && n <= r < n + 16
  {
    (n + 16 - 1) / 16 * 16
  }

  /** An 8-bit signed value, as the `(int8_t)` and `(char)` casts produce. */
  function Int8(v: int): (r: int)
    ensures -128 <= r < 128 && (r - v) % 256 == 0
  {
    (v + 128) % 256 - 128
  }

  function WidthOf(size: int): Width {
    if size == 1 then Byte1
    else if size == 2 then Word2
    else if size == 4 then Long4
    else Quad8
  }

  /** `emit_load`: functions and classes decay to their address; other values are loaded by size. */
  function LoadCode(t: Type): (code: seq<Instr>)
    ensures t.kind in {TyFn, TyClass} ==> code == []
    ensures t.kind !in {TyFn, TyClass} ==> |code| == 1 && code[0].Load?
    ensures t.kind !in {TyFn, TyClass} && t.size !in {1, 2, 4} ==> code == [Load(Quad8)]
  {
    if t.kind in {TyFn, TyClass} then [] else [Load(WidthOf(t.size))]
  }

  /** `emit_store`: pop the address pushed earlier, then store `%rax` there with the type's width. */
  function StoreCode(size: int): (code: seq<Instr>)
    requires StoreSize(size)
    ensures |code| == 2 && code[0] == Pop(EmitX86.Rdi) && code[1].Store?
  {
    [Pop(EmitX86.Rdi), Store(WidthOf(size))]
  }

  /** One push per register, in list order. */
  function Pushes(regs: seq<Reg>): (code: seq<Instr>)
    ensures |code| == |regs|
  {
    seq(|regs|, k requires 0 <= k < |regs| => Push(regs[k]))
  }

  /**
   * One pop per register, in the order they were pushed, as `codegen.h`
   * prints them (codegen.h:291-302, 399-408, 596-609). A stack gives values
   * back last-in first-out, so this hands the saved values back mirrored;
   * module CodegenSaves runs it and gives the corrected order.
   */
  function PopsInOrder(regs: seq<Reg>): (code: seq<Instr>)
    ensures |code| == |regs|
  {
    seq(|regs|, k requires 0 <= k < |regs| => Pop(regs[k]))
  }

  /** Push `regs` in order, call `callee`, then pop them in the same order. */
  function SaveAround(regs: seq<Reg>, callee: Callee): (code: seq<Instr>)
    ensures |code| == 2 * |regs| + 1
  {
    Pushes(regs) + [CallFn(callee)] + PopsInOrder(regs)
  }

  /** The registers saved around `mkt_string_make` (codegen.h:279-290). */
  const STRING_SAVED: seq<Reg> :=
    [EmitX86.Rbx, EmitX86.Rcx, EmitX86.Rdx, EmitX86.Rsi, EmitX86.R8, EmitX86.R9,
     EmitX86.R10, EmitX86.R11, EmitX86.R12, EmitX86.R13, EmitX86.R14, EmitX86.R15]

  /** The registers saved around `mkt_string_concat`, `%rbx` twice to keep 16-byte alignment (codegen.h:386-395). */
  const CONCAT_SAVED: seq<Reg> :=
    [EmitX86.Rbx, EmitX86.Rbx, EmitX86.R8, EmitX86.R9, EmitX86.R10, EmitX86.R11,
     EmitX86.R12, EmitX86.R13, EmitX86.R14, EmitX86.R15]

  /** The registers saved around `mkt_instance_make` (codegen.h:581-594). */
  const INSTANCE_SAVED: seq<Reg> :=
    [EmitX86.Rbx, EmitX86.Rbx, EmitX86.Rcx, EmitX86.Rdi, EmitX86.Rdx, EmitX86.Rsi,
     EmitX86.R8, EmitX86.R9, EmitX86.R10, EmitX86.R11, EmitX86.R12, EmitX86.R13,
     EmitX86.R14, EmitX86.R15]

  /** A string literal: allocate `|s|` bytes, then store them one by one as signed chars. */
  function StringCode(s: seq<byte>): (code: seq<Instr>)
    ensures |code| == 2 * |STRING_SAVED| + 2 + |s|
  {
    [MovImm(|s|, EmitX86.Rdi, true)] + SaveAround(STRING_SAVED, StringMake) +
    seq(|s|, k requires 0 <= k < |s| => StoreByte(Int8(s[k] as int), k))
  }

  function CondOf(op: BinOp): Cond
    requires IsComparison(op)
  {
    match op
    case Lt => Less
    case Le => LessEq
    case Eq => Equal
    case Neq => NotEqual
  }

  /**
   * What follows the two operands of a binary node: the right operand is on
   * the stack and the left one in `%rax`.
   */
  function BinaryTail(op: BinOp, isString: bool, wide: bool): (code: seq<Instr>)
    ensures |code| >= 2
    ensures !(op == Add && isString) ==> code[0] == Pop(EmitX86.Rdi)
    ensures IsComparison(op) ==> code[1..] == [CmpRdi, SetCond(CondOf(op)), ZeroExtendAl]
  {
    var rdi := EmitX86.Rdi;
    match op
    case Modulo => [Pop(rdi), Cqo, ZeroRdx, Idiv, MovReg(EmitX86.Rdx, EmitX86.Rax)]
    case Divide => [Pop(rdi), Cqo, Idiv]
    case Multiply => [Pop(rdi), Imul]
    case Subtract => [Pop(rdi), SubRdi]
    case Add =>
      if isString then
        [MovReg(EmitX86.Rax, FN_ARGS[0]), MovReg(EmitX86.Rax, FN_ARGS[1]), SubImm(8, FN_ARGS[1]),
         Pop(FN_ARGS[2]), MovReg(FN_ARGS[2], FN_ARGS[3]), SubImm(8, FN_ARGS[3])] +
        SaveAround(CONCAT_SAVED, StringConcat)
      else
        [Pop(rdi), AddRdi(wide)]
    case _ => [Pop(rdi), CmpRdi, SetCond(CondOf(op)), ZeroExtendAl]
  }

  /** `println(x)`: the runtime function chosen by the argument's type, after `x` is moved to `%rdi`. */
  function PrintlnCall(k: TypeKind): seq<Instr>
    requires Printable(k)
  {
    match k
    case TyLong => [CallFn(IntPrintln)]
    case TyInt => [CallFn(IntPrintln)]
    case TyShort => [CallFn(IntPrintln)]
    case TyByte => [CallFn(IntPrintln)]
    case TyChar => [CallFn(CharPrintln)]
    case TyBool => [CallFn(BoolPrintln)]
    case TyString => [MovReg(EmitX86.Rax, FN_ARGS[1]), SubImm(8, FN_ARGS[1]), CallFn(StringPrintln)]
    case TyPtr => [CallFn(InstancePrintln)]
  }

  /** The `if` node `i`: both branches and the two labels keyed by `i`. */
  function IfCode(i: int, cond: seq<Instr>, thenCode: seq<Instr>, elseCode: seq<Instr>): seq<Instr> {
    cond + [CmpZero, Je(ElseLabel(i))] + thenCode + [Jmp(EndLabel(i)), LabelDef(ElseLabel(i))] +
    elseCode + [LabelDef(EndLabel(i))]
  }

  /** The `while` node `i`: the loop between a start and an end label keyed by `i`. */
  function WhileCode(i: int, cond: seq<Instr>, body: seq<Instr>): seq<Instr> {
    [LabelDef(WhileStart(i))] + cond + [CmpZero, Je(WhileEnd(i))] + body +
    [Jmp(WhileStart(i)), LabelDef(WhileEnd(i))]
  }

  /** The pops of a system call's arguments 1 .. n into the argument registers. */
  function ArgPops(n: nat): (code: seq<Instr>)
    requires n <= 6
    ensures |code| == n && forall k | 0 <= k < n :: code[k] == Pop(FN_ARGS[k])
  {
    seq(n, k requires 0 <= k < n => Pop(FN_ARGS[k]))
  }

  /** The address of a declaration a variable refers to. */
  function DeclAddr(n: Node): seq<Instr>
    requires IsDecl(n)
  {
    if n.kind.VarDef? then [LeaLocal(n.kind.stackOffset)] else [LeaSymbol(n.kind.nameTok)]
  }

  /** `emit_addr(i)`: leaves the address of node `i` in `%rax`. */
  function AddrCode(p: Program, i: int): (code: seq<Instr>)
    requires AddrOk(p, i)
    decreases i
  {
    match p.nodes[i].kind
    case Var(d) => DeclAddr(p.nodes[d])
    case VarDef(off, _, _) => [LeaLocal(off)]
    case Member(l, r) => AddrCode(p, l) + [AddOffset(p.nodes[r].kind.stackOffset, p.nodes[r].kind.nameTok)]
    case FnDecl(tok, _, _, _, _) => [LeaSymbol(tok)]
  }

  /** `emit_expr(i)` inside the function `fn` (the value of `current_fn_i`): leaves the value in `%rax`. */
  function ExprCode(p: Program, i: int, fn: int): seq<Instr>
    requires ExprOk(p, i)
    decreases i, 2
  {
    assert ExprKindOk(p, i, p.nodes[i].kind);
    var t := TypeOf(p, i);
    var wide := t.size == 8;
    match p.nodes[i].kind
    case KeywordBool(v) => [MovImm(Int8(v), EmitX86.Rax, wide)]
    case StringLit(tok) => StringCode(p.text[tok])
    case CharLit(v) => [MovImm(Int8(v), EmitX86.Rax, wide)]
    case LongLit(v) => [MovImm(v, EmitX86.Rax, wide)]
    case Binary(op, l, r) =>
      ExprCode(p, r, fn) + [Push(EmitX86.Rax)] + ExprCode(p, l, fn) + BinaryTail(op, t.kind == TyString, wide)
    case Member(_, _) => AddrCode(p, i) + LoadCode(t)
    case Return(a) => (if a >= 0 then ExprCode(p, a, fn) else []) + [Jmp(ReturnLabel(fn))]
    case Not(a) => ExprCode(p, a, fn) + [CmpZero, SetCond(Equal)]
    case If(c, th, e) =>
      IfCode(i, ExprCode(p, c, fn), ExprCode(p, th, fn), if e >= 0 then ExprCode(p, e, fn) else [])
    case Println(a) =>
      ExprCode(p, a, fn) + [MovReg(EmitX86.Rax, FN_ARGS[0])] + PrintlnCall(TypeOf(p, a).kind) +
      [MovImm(0, EmitX86.Rax, true)]
    case SysCall(args) =>
      PushArgs(p, i, args, |args| - 1, fn) + ArgPops(|args| - 1) + ExprCode(p, args[0], fn) + [SyscallInstr]
    case Block(stmts) => BlockCode(p, i, stmts, |stmts|, fn)
    case Var(_) => AddrCode(p, i) + LoadCode(t)
    case Call(c, args) =>
      CallArgs(p, i, args, |args|, fn) + ExprCode(p, c, fn) + [MovReg(EmitX86.Rax, EmitX86.R10), CallReg(EmitX86.R10)]
    case Instance =>
      [MovImm(p.types[t.pointee].size, FN_ARGS[0], true)] + SaveAround(INSTANCE_SAVED, InstanceMake)
  }

  /** A system call's arguments `hi` down to 1, each evaluated and pushed. */
  function PushArgs(p: Program, i: int, args: seq<int>, hi: nat, fn: int): seq<Instr>
    requires hi < |args| && ExprsOk(p, i, args)
    decreases i, 1, hi
  {
    if hi == 0 then [] else ExprCode(p, args[hi], fn) + [Push(EmitX86.Rax)] + PushArgs(p, i, args, hi - 1, fn)
  }

  /** A call's first `n` arguments, each evaluated and moved to its argument register. */
  function CallArgs(p: Program, i: int, args: seq<int>, n: nat, fn: int): seq<Instr>
    requires n <= |args| <= 6 && ExprsOk(p, i, args)
    decreases i, 1, n
  {
    if n == 0 then [] else CallArgs(p, i, args, n - 1, fn) + ExprCode(p, args[n - 1], fn) + [MovReg(EmitX86.Rax, FN_ARGS[n - 1])]
  }

  /** The first `n` statements of a block. */
  function BlockCode(p: Program, i: int, stmts: seq<int>, n: nat, fn: int): seq<Instr>
    requires n <= |stmts| && StmtsOk(p, i, stmts)
    decreases i, 1, n
  {
    if n == 0 then [] else BlockCode(p, i, stmts, n - 1, fn) + StmtCode(p, stmts[n - 1], fn)
  }

  /** `emit_stmt(i)` inside the function `fn`. */
  function StmtCode(p: Program, i: int, fn: int): seq<Instr>
    requires StmtOk(p, i)
    decreases i, 3
  {
    assert StmtKindOk(p, i, p.nodes[i].kind);
    var t := TypeOf(p, i);
    match p.nodes[i].kind
    case Assign(l, r) => AddrCode(p, l) + [Push(EmitX86.Rax)] + ExprCode(p, r, fn) + StoreCode(t.size)
    case VarDef(_, init, _) =>
      if init < 0 then []
      else AddrCode(p, i) + [Push(EmitX86.Rax)] + ExprCode(p, init, fn) + StoreCode(t.size)
    case While(c, b) => WhileCode(i, ExprCode(p, c, fn), StmtCode(p, b, fn))
    case FnDecl(_, _, _, _, _) => []
    case ClassDecl => []
    case _ => ExprCode(p, i, fn)
  }

  /** The stores of the first `n` parameters into their stack slots. */
  function ParamStores(p: Program, params: seq<int>, n: nat): (code: seq<Instr>)
    requires n <= |params| && ParamsOk(p, params)
    ensures |code| == 2 * n
  {
    if n == 0 then []
    else
      var off := p.nodes[params[n - 1]].kind.stackOffset;
      ParamStores(p, params, n - 1) + [StoreLocal(EmitX86.Rax, off), StoreLocal(FN_ARGS[n - 1], off)]
  }

  /** `fn_prolog`: set up the frame, reserve `size` bytes and spill the parameters. */
  function PrologCode(p: Program, params: seq<int>, size: int): seq<Instr>
    requires ParamsOk(p, params)
  {
    [CfiStartproc, Push(EmitX86.Rbp), CfiDefCfaOffset, CfiOffsetRbp, MovReg(EmitX86.Rsp, EmitX86.Rbp),
     CfiDefCfaRegister, SubRsp(size)] + ParamStores(p, params, |params|)
  }

  /** `fn_epilog`: the return label of function `fn`, then the frame is torn down. */
  function EpilogCode(fn: int, size: int): seq<Instr> {
    [LabelDef(ReturnLabel(fn)), AddRsp(size), Pop(EmitX86.Rbp), CfiEndproc, Ret]
  }

  /** `emit_program_epilog`: `exit(0)`. */
  function ProgramEpilogCode(pl: Platform): seq<Instr> {
    [MovImm(SyscallExit(pl), EmitX86.Rax, true), MovImm(0, EmitX86.Rdi, true), SyscallInstr]
  }

  /** The frame of function `d`: prologue, body, `exit(0)` for `main`, then the epilogue. */
  function FrameCode(p: Program, d: int, pl: Platform): seq<Instr>
    requires DeclOk(p, d) && p.nodes[d].kind.FnDecl?
  {
    var f := p.nodes[d].kind;
    var size := AlignTo16(f.stackSize);
    PrologCode(p, f.params, size) + StmtCode(p, f.body, d) +
    (if d == p.mainFn then ProgramEpilogCode(pl) else []) + EpilogCode(d, size)
  }

  /** One iteration of `emit`'s loop: the code of declaration `d`, empty unless it is a function. */
  function FnCode(p: Program, d: int, pl: Platform): seq<Instr>
    requires DeclOk(p, d)
  {
    match p.nodes[d].kind
    case FnDecl(tok, _, _, _, isPublic) =>
      (if isPublic then [Global(tok)] else []) + [LabelDef(FnLabel(tok))] + FrameCode(p, d, pl)
    case _ => []
  }

  predicate DeclsOk(p: Program) {
    forall k | 0 <= k < |p.decls| :: DeclOk(p, p.decls[k])
  }

  /** The code of the first `n` declarations. */
  function DeclsCode(p: Program, n: nat, pl: Platform): seq<Instr>
    requires n <= |p.decls| && DeclsOk(p)
  {
    if n == 0 then [] else DeclsCode(p, n - 1, pl) + FnCode(p, p.decls[n - 1], pl)
  }
}
