/**
 * The emitter of `codegen.h` as the source runs it: a state made of the
 * lines written so far and the global `current_fn_i`, changed one line at a
 * time by `emit_addr`, `emit_expr`, `emit_stmt`, `fn_prolog`, `fn_epilog`
 * and `emit`. Each method is proved to append exactly the lines the
 * matching function of `Codegen` describes, and to hand `current_fn_i`
 * back to its caller unchanged.
 */
module CodegenEmitter {
  import opened Base
  import opened CodegenAst
  import opened Codegen
  import EmitX86

  /* Appending pieces one at a time appends their concatenation. */

  lemma Assoc2<T>(o: seq<T>, a: seq<T>, b: seq<T>)
    ensures o + a + b == o + (a + b)
  {
  }

  lemma Assoc3<T>(o: seq<T>, a: seq<T>, b: seq<T>, c: seq<T>)
    ensures o + a + b + c == o + (a + b + c)
  {
  }

  lemma Assoc4<T>(o: seq<T>, a: seq<T>, b: seq<T>, c: seq<T>, d: seq<T>)
    ensures o + a + b + c + d == o + (a + b + c + d)
  {
  }

  lemma Assoc5<T>(o: seq<T>, a: seq<T>, b: seq<T>, c: seq<T>, d: seq<T>, e: seq<T>)
    ensures o + a + b + c + d + e == o + (a + b + c + d + e)
  {
  }

  lemma Assoc6<T>(o: seq<T>, a: seq<T>, b: seq<T>, c: seq<T>, d: seq<T>, e: seq<T>, f: seq<T>)
    ensures o + a + b + c + d + e + f == o + (a + b + c + d + e + f)
  {
  }

  class Emitter {
    /** The parsed program and its types. */
    const prog: Program
    /** The target, which fixes the `exit` system call number. */
    const platform: Platform
    /** The lines written to `output_file` so far. */
    var out: seq<Instr>
    /** `current_fn_i`: the function whose body is being emitted. */
    var currentFn: int

    constructor (p: Program, pl: Platform)
      ensures prog == p && platform == pl && out == [] && currentFn == 0
    {
      prog := p;
      platform := pl;
      out := [];
      currentFn := 0;
    }

    /** `println`: one line of assembly. */
    method Line(x: Instr)
      modifies this
      ensures out == old(out) + [x] && currentFn == old(currentFn)
    {
      out := out + [x];
    }

    /** Several lines, in order. */
    method Lines(xs: seq<Instr>)
      modifies this
      ensures out == old(out) + xs && currentFn == old(currentFn)
    {
      for k := 0 to |xs|
        invariant out == old(out) + xs[..k] && currentFn == old(currentFn)
      {
        assert xs[..k + 1] == xs[..k] + [xs[k]];
        Line(xs[k]);
      }
      assert xs[..|xs|] == xs;
    }

    /**
     * The address of a declaration; for a function, `current_fn_i` is set to
     * it while its symbol is written and then given back (codegen.h:95-115).
     */
    method EmitDeclAddr(d: int)
      requires 0 <= d < |prog.nodes| && IsDecl(prog.nodes[d]) && 0 <= currentFn < |prog.nodes|
      modifies this
      ensures out == old(out) + DeclAddr(prog.nodes[d]) && currentFn == old(currentFn)
    {
      if prog.nodes[d].kind.VarDef? {
        Line(LeaLocal(prog.nodes[d].kind.stackOffset));
      } else {
        var caller := currentFn;
        currentFn := d;
        Line(LeaSymbol(prog.nodes[d].kind.nameTok));
        currentFn := caller;
      }
    }

    /** `emit_addr`. */
    method EmitAddr(i: int)
      requires AddrOk(prog, i) && 0 <= currentFn < |prog.nodes|
      modifies this
      ensures out == old(out) + AddrCode(prog, i) && currentFn == old(currentFn)
      decreases i
    {
      match prog.nodes[i].kind
      case Var(d) => EmitDeclAddr(d);
      case VarDef(_, _, _) => EmitDeclAddr(i);
      case Member(l, r) =>
        EmitAddr(l);
        Line(AddOffset(prog.nodes[r].kind.stackOffset, prog.nodes[r].kind.nameTok));
      case FnDecl(_, _, _, _, _) => EmitDeclAddr(i);
    }

    /** `emit_load`. */
    method EmitLoad(t: Type)
      modifies this
      ensures out == old(out) + LoadCode(t) && currentFn == old(currentFn)
    {
      if t.kind == TyFn || t.kind == TyClass {
        return;
      }
      if t.size == 1 {
        Line(Load(Byte1));
      } else if t.size == 2 {
        Line(Load(Word2));
      } else if t.size == 4 {
        Line(Load(Long4));
      } else {
        Line(Load(Quad8));
      }
    }

    /** `emit_store`; a size other than 1, 2, 4 or 8 is unreachable there. */
    method EmitStore(size: int)
      requires StoreSize(size)
      modifies this
      ensures out == old(out) + StoreCode(size) && currentFn == old(currentFn)
    {
      Line(Pop(EmitX86.Rdi));
      if size == 1 {
        Line(Store(Byte1));
      } else if size == 2 {
        Line(Store(Word2));
      } else if size == 4 {
        Line(Store(Long4));
      } else {
        Line(Store(Quad8));
      }
    }

    /** `emit_expr`. */
    method EmitExpr(i: int)
      requires ExprOk(prog, i) && 0 <= currentFn < |prog.nodes|
      modifies this
      ensures out == old(out) + ExprCode(prog, i, currentFn) && currentFn == old(currentFn)
      decreases i, 2
    {
      var t := TypeOf(prog, i);
      var wide := t.size == 8;
      match prog.nodes[i].kind
      case KeywordBool(v) => Line(MovImm(Int8(v), EmitX86.Rax, wide));
      case StringLit(tok) => Lines(StringCode(prog.text[tok]));
      case CharLit(v) => Line(MovImm(Int8(v), EmitX86.Rax, wide));
      case LongLit(v) => Line(MovImm(v, EmitX86.Rax, wide));
      case Binary(_, _, _) => EmitBinary(i);
      case Member(_, _) =>
        ghost var o := out;
        EmitAddr(i);
        EmitLoad(t);
        Assoc2(o, AddrCode(prog, i), LoadCode(t));
      case Return(_) => EmitReturn(i);
      case Not(a) =>
        ghost var o := out;
        EmitExpr(a);
        Lines([CmpZero, SetCond(Equal)]);
        Assoc2(o, ExprCode(prog, a, currentFn), [CmpZero, SetCond(Equal)]);
      case If(_, _, _) => EmitIf(i);
      case Println(_) => EmitPrintln(i);
      case SysCall(_) => EmitSysCall(i);
      case Block(stmts) => EmitBlock(i, stmts);
      case Var(_) =>
        ghost var o := out;
        EmitAddr(i);
        EmitLoad(t);
        Assoc2(o, AddrCode(prog, i), LoadCode(t));
      case Call(_, _) => EmitCall(i);
      case Instance =>
        ghost var o := out;
        var size := MovImm(prog.types[t.pointee].size, FN_ARGS[0], true);
        Line(size);
        Lines(SaveAround(INSTANCE_SAVED, InstanceMake));
        Assoc2(o, [size], SaveAround(INSTANCE_SAVED, InstanceMake));
    }

    /** A binary node: right operand, push, left operand, then the operator. */
    method EmitBinary(i: int)
      requires ExprOk(prog, i) && prog.nodes[i].kind.Binary? && 0 <= currentFn < |prog.nodes|
      modifies this
      ensures out == old(out) + ExprCode(prog, i, currentFn) && currentFn == old(currentFn)
      decreases i, 1
    {
      var Binary(op, l, r) := prog.nodes[i].kind;
      var t := TypeOf(prog, i);
      ghost var o := out;
      EmitExpr(r);
      Line(Push(EmitX86.Rax));
      EmitExpr(l);
      var tail := BinaryTail(op, t.kind == TyString, t.size == 8);
      Lines(tail);
      Assoc4(o, ExprCode(prog, r, currentFn), [Push(EmitX86.Rax)], ExprCode(prog, l, currentFn), tail);
    }

    /** `return`: the value if any, then a jump to the current function's return label. */
    method EmitReturn(i: int)
      requires ExprOk(prog, i) && prog.nodes[i].kind.Return? && 0 <= currentFn < |prog.nodes|
      modifies this
      ensures out == old(out) + ExprCode(prog, i, currentFn) && currentFn == old(currentFn)
      decreases i, 1
    {
      var a := prog.nodes[i].kind.arg;
      ghost var o := out;
      if a >= 0 {
        EmitExpr(a);
        Assoc2(o, ExprCode(prog, a, currentFn), [Jmp(ReturnLabel(currentFn))]);
      }
      Line(Jmp(ReturnLabel(currentFn)));
    }

    /** `if`: the labels `.L.else.<i>` and `.L.end.<i>` keyed by the node. */
    method EmitIf(i: int)
      requires ExprOk(prog, i) && prog.nodes[i].kind.If? && 0 <= currentFn < |prog.nodes|
      modifies this
      ensures out == old(out) + ExprCode(prog, i, currentFn) && currentFn == old(currentFn)
      decreases i, 1
    {
      var If(c, th, e) := prog.nodes[i].kind;
      ghost var o := out;
      EmitExpr(c);
      Lines([CmpZero, Je(ElseLabel(i))]);
      EmitExpr(th);
      Lines([Jmp(EndLabel(i)), LabelDef(ElseLabel(i))]);
      ghost var mid := out;
      if e >= 0 {
        EmitExpr(e);
      }
      ghost var elseCode := if e >= 0 then ExprCode(prog, e, currentFn) else [];
      assert out == mid + elseCode;
      Line(LabelDef(EndLabel(i)));
      Assoc6(o, ExprCode(prog, c, currentFn), [CmpZero, Je(ElseLabel(i))], ExprCode(prog, th, currentFn),
             [Jmp(EndLabel(i)), LabelDef(ElseLabel(i))], elseCode, [LabelDef(EndLabel(i))]);
    }

    /** `println`: the argument, moved to `%rdi`, then the runtime call chosen by its type. */
    method EmitPrintln(i: int)
      requires ExprOk(prog, i) && prog.nodes[i].kind.Println? && 0 <= currentFn < |prog.nodes|
      modifies this
      ensures out == old(out) + ExprCode(prog, i, currentFn) && currentFn == old(currentFn)
      decreases i, 1
    {
      var a := prog.nodes[i].kind.arg;
      ghost var o := out;
      EmitExpr(a);
      Line(MovReg(EmitX86.Rax, FN_ARGS[0]));
      var call := PrintlnCall(TypeOf(prog, a).kind);
      Lines(call);
      Line(MovImm(0, EmitX86.Rax, true));
      Assoc4(o, ExprCode(prog, a, currentFn), [MovReg(EmitX86.Rax, FN_ARGS[0])], call, [MovImm(0, EmitX86.Rax, true)]);
    }

    /** A system call: arguments from the last down to the second pushed, popped into registers, then the first. */
    method EmitSysCall(i: int)
      requires ExprOk(prog, i) && prog.nodes[i].kind.SysCall? && 0 <= currentFn < |prog.nodes|
      modifies this
      ensures out == old(out) + ExprCode(prog, i, currentFn) && currentFn == old(currentFn)
      decreases i, 1
    {
      var args := prog.nodes[i].kind.args;
      assert ExprCode(prog, i, currentFn) ==
        PushArgs(prog, i, args, |args| - 1, currentFn) + ArgPops(|args| - 1) + ExprCode(prog, args[0], currentFn) + [SyscallInstr];
      EmitSysCallArgs(i, args);
    }

    /** The body of a system call node `i` with arguments `args`. */
    method EmitSysCallArgs(i: int, args: seq<int>)
      requires 0 < |args| <= 7 && ExprsOk(prog, i, args) && 0 <= currentFn < |prog.nodes|
      modifies this
      ensures out == old(out) + PushArgs(prog, i, args, |args| - 1, currentFn) + ArgPops(|args| - 1) +
                     ExprCode(prog, args[0], currentFn) + [SyscallInstr]
      ensures currentFn == old(currentFn)
      decreases i, 0, 1
    {
      EmitPushArgs(i, args);
      EmitArgPops(|args| - 1);
      EmitExpr(args[0]);
      Line(SyscallInstr);
    }

    /** The system call arguments from the last down to the second, each evaluated and pushed. */
    method EmitPushArgs(i: int, args: seq<int>)
      requires 0 < |args| && ExprsOk(prog, i, args) && 0 <= currentFn < |prog.nodes|
      modifies this
      ensures out == old(out) + PushArgs(prog, i, args, |args| - 1, currentFn) && currentFn == old(currentFn)
      decreases i, 0, 0
    {
      var k := |args| - 1;
      while k > 0
        invariant 0 <= k < |args| && currentFn == old(currentFn)
        invariant out + PushArgs(prog, i, args, k, currentFn) == old(out) + PushArgs(prog, i, args, |args| - 1, currentFn)
        decreases k
      {
        ghost var before := out;
        EmitExpr(args[k]);
        Line(Push(EmitX86.Rax));
        Assoc3(before, ExprCode(prog, args[k], currentFn), [Push(EmitX86.Rax)], PushArgs(prog, i, args, k - 1, currentFn));
        k := k - 1;
      }
    }

    /** The pops of system call arguments 1 .. n into `%rdi`, `%rsi`, ... */
    method EmitArgPops(n: nat)
      requires n <= 6
      modifies this
      ensures out == old(out) + ArgPops(n) && currentFn == old(currentFn)
    {
      for j := 1 to n + 1
        invariant currentFn == old(currentFn)
        invariant out == old(out) + ArgPops(j - 1)
      {
        assert ArgPops(j) == ArgPops(j - 1) + [Pop(FN_ARGS[j - 1])];
        Line(Pop(FN_ARGS[j - 1]));
      }
    }

    /** A block: each statement in order. */
    method EmitBlock(i: int, stmts: seq<int>)
      requires ExprOk(prog, i) && prog.nodes[i].kind == Block(stmts) && 0 <= currentFn < |prog.nodes|
      modifies this
      ensures out == old(out) + ExprCode(prog, i, currentFn) && currentFn == old(currentFn)
      decreases i, 1
    {
      for k := 0 to |stmts|
        invariant currentFn == old(currentFn)
        invariant out == old(out) + BlockCode(prog, i, stmts, k, currentFn)
      {
        EmitStmt(stmts[k]);
        Assoc2(old(out), BlockCode(prog, i, stmts, k, currentFn), StmtCode(prog, stmts[k], currentFn));
      }
    }

    /** A call: each argument evaluated and moved to its register, then the callee, called through `%r10`. */
    method EmitCall(i: int)
      requires ExprOk(prog, i) && prog.nodes[i].kind.Call? && 0 <= currentFn < |prog.nodes|
      modifies this
      ensures out == old(out) + ExprCode(prog, i, currentFn) && currentFn == old(currentFn)
      decreases i, 1
    {
      var Call(c, args) := prog.nodes[i].kind;
      for k := 0 to |args|
        invariant currentFn == old(currentFn)
        invariant out == old(out) + CallArgs(prog, i, args, k, currentFn)
      {
        EmitExpr(args[k]);
        Line(MovReg(EmitX86.Rax, FN_ARGS[k]));
        Assoc3(old(out), CallArgs(prog, i, args, k, currentFn), ExprCode(prog, args[k], currentFn),
               [MovReg(EmitX86.Rax, FN_ARGS[k])]);
      }
      EmitExpr(c);
      Lines([MovReg(EmitX86.Rax, EmitX86.R10), CallReg(EmitX86.R10)]);
      Assoc3(old(out), CallArgs(prog, i, args, |args|, currentFn), ExprCode(prog, c, currentFn),
             [MovReg(EmitX86.Rax, EmitX86.R10), CallReg(EmitX86.R10)]);
    }

    /** `emit_stmt`. */
    method EmitStmt(i: int)
      requires StmtOk(prog, i) && 0 <= currentFn < |prog.nodes|
      modifies this
      ensures out == old(out) + StmtCode(prog, i, currentFn) && currentFn == old(currentFn)
      decreases i, 3
    {
      var t := TypeOf(prog, i);
      match prog.nodes[i].kind
      case Assign(l, r) =>
        ghost var o := out;
        EmitAddr(l);
        Line(Push(EmitX86.Rax));
        EmitExpr(r);
        EmitStore(t.size);
        Assoc4(o, AddrCode(prog, l), [Push(EmitX86.Rax)], ExprCode(prog, r, currentFn), StoreCode(t.size));
      case VarDef(_, init, _) =>
        if init >= 0 {
          ghost var o := out;
          EmitAddr(i);
          Line(Push(EmitX86.Rax));
          EmitExpr(init);
          EmitStore(t.size);
          Assoc4(o, AddrCode(prog, i), [Push(EmitX86.Rax)], ExprCode(prog, init, currentFn), StoreCode(t.size));
        }
      case While(c, b) =>
        ghost var o := out;
        Line(LabelDef(WhileStart(i)));
        EmitExpr(c);
        Lines([CmpZero, Je(WhileEnd(i))]);
        EmitStmt(b);
        Lines([Jmp(WhileStart(i)), LabelDef(WhileEnd(i))]);
        Assoc5(o, [LabelDef(WhileStart(i))], ExprCode(prog, c, currentFn), [CmpZero, Je(WhileEnd(i))],
               StmtCode(prog, b, currentFn), [Jmp(WhileStart(i)), LabelDef(WhileEnd(i))]);
      case FnDecl(_, _, _, _, _) =>
      case ClassDecl =>
      case KeywordBool(_) => EmitExpr(i);
      case StringLit(_) => EmitExpr(i);
      case CharLit(_) => EmitExpr(i);
      case LongLit(_) => EmitExpr(i);
      case Binary(_, _, _) => EmitExpr(i);
      case Member(_, _) => EmitExpr(i);
      case Return(_) => EmitExpr(i);
      case Not(_) => EmitExpr(i);
      case If(_, _, _) => EmitExpr(i);
      case Println(_) => EmitExpr(i);
      case SysCall(_) => EmitExpr(i);
      case Block(_) => EmitExpr(i);
      case Var(_) => EmitExpr(i);
      case Call(_, _) => EmitExpr(i);
      case Instance => EmitExpr(i);
    }

    /** `fn_prolog`: the frame set-up, then each parameter spilled to its slot. */
    method FnProlog(params: seq<int>, size: int)
      requires ParamsOk(prog, params) && size >= 0 && size % 16 == 0
      modifies this
      ensures out == old(out) + PrologCode(prog, params, size) && currentFn == old(currentFn)
    {
      var head := [CfiStartproc, Push(EmitX86.Rbp), CfiDefCfaOffset, CfiOffsetRbp,
                   MovReg(EmitX86.Rsp, EmitX86.Rbp), CfiDefCfaRegister, SubRsp(size)];
      Lines(head);
      for k := 0 to |params|
        invariant currentFn == old(currentFn)
        invariant out == old(out) + head + ParamStores(prog, params, k)
      {
        var off := prog.nodes[params[k]].kind.stackOffset;
        Line(StoreLocal(EmitX86.Rax, off));
        Line(StoreLocal(FN_ARGS[k], off));
        Assoc3(old(out) + head, ParamStores(prog, params, k), [StoreLocal(EmitX86.Rax, off)], [StoreLocal(FN_ARGS[k], off)]);
      }
      Assoc2(old(out), head, ParamStores(prog, params, |params|));
    }

    /** `fn_epilog`: the return label of `current_fn_i`, then the frame is torn down. */
    method FnEpilog(size: int)
      requires size >= 0 && size % 16 == 0
      modifies this
      ensures out == old(out) + EpilogCode(currentFn, size) && currentFn == old(currentFn)
    {
      Lines([LabelDef(ReturnLabel(currentFn)), AddRsp(size), Pop(EmitX86.Rbp), CfiEndproc, Ret]);
    }

    /** `emit_program_epilog`. */
    method EmitProgramEpilog()
      modifies this
      ensures out == old(out) + ProgramEpilogCode(platform) && currentFn == old(currentFn)
    {
      Lines([MovImm(SyscallExit(platform), EmitX86.Rax, true), MovImm(0, EmitX86.Rdi, true), SyscallInstr]);
    }

    /** One function declaration of `emit`'s loop, with `current_fn_i` set to it for its body. */
    method EmitFn(d: int)
      requires DeclOk(prog, d) && prog.nodes[d].kind.FnDecl? && 0 <= currentFn < |prog.nodes|
      modifies this
      ensures out == old(out) + FnCode(prog, d, platform) && currentFn == old(currentFn)
    {
      var FnDecl(tok, body, stackSize, params, isPublic) := prog.nodes[d].kind;
      ghost var o := out;
      if isPublic {
        Line(Global(tok));
      }
      ghost var global := if isPublic then [Global(tok)] else [];
      assert out == o + global;
      Line(LabelDef(FnLabel(tok)));
      var caller := currentFn;
      currentFn := d;
      EmitFrame(d);
      currentFn := caller;
      Assoc3(o, global, [LabelDef(FnLabel(tok))], FrameCode(prog, d, platform));
    }

    /** The frame, body and epilogues of function `d`, emitted while `current_fn_i` is `d`. */
    method EmitFrame(d: int)
      requires DeclOk(prog, d) && prog.nodes[d].kind.FnDecl? && currentFn == d
      modifies this
      ensures out == old(out) + FrameCode(prog, d, platform) && currentFn == old(currentFn)
    {
      var FnDecl(_, body, stackSize, params, _) := prog.nodes[d].kind;
      ghost var o := out;
      var size := AlignTo16(stackSize);
      FnProlog(params, size);
      EmitStmt(body);
      ghost var mid := out;
      if currentFn == prog.mainFn {
        EmitProgramEpilog();
      }
      ghost var exit := if d == prog.mainFn then ProgramEpilogCode(platform) else [];
      assert out == mid + exit;
      FnEpilog(size);
      Assoc4(o, PrologCode(prog, params, size), StmtCode(prog, body, d), exit, EpilogCode(d, size));
    }

    /**
     * One iteration of `emit`'s loop, on the `k`-th declaration: one that is
     * not a function is skipped. `o` is what was written before the loop.
     */
    method EmitDecl(k: nat, ghost o: seq<Instr>)
      requires k < |prog.decls| && DeclsOk(prog) && 0 <= currentFn < |prog.nodes|
      requires out == o + DeclsCode(prog, k, platform)
      modifies this
      ensures out == o + DeclsCode(prog, k + 1, platform) && currentFn == old(currentFn)
    {
      var d := prog.decls[k];
      assert DeclOk(prog, d);
      if prog.nodes[d].kind.FnDecl? {
        EmitFn(d);
      }
      Assoc2(o, DeclsCode(prog, k, platform), FnCode(prog, d, platform));
    }

    /**
     * `emit`'s loop over the declarations: the code of every function, in
     * declaration order; `current_fn_i` ends as it started.
     */
    method Emit()
      requires DeclsOk(prog) && (|prog.decls| > 0 ==> 0 <= currentFn < |prog.nodes|)
      modifies this
      ensures out == old(out) + DeclsCode(prog, |prog.decls|, platform) && currentFn == old(currentFn)
    {
      ghost var o := out;
      for k := 0 to |prog.decls|
        invariant currentFn == old(currentFn)
        invariant out == o + DeclsCode(prog, k, platform)
      {
        EmitDecl(k, o);
      }
    }
  }
}
