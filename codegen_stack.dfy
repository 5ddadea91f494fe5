/**
 * Stack discipline of the generated code. Operands are parked on the machine
 * stack with `push` and taken back with `pop`; the code of every expression,
 * statement and function must leave the stack as it found it and never pop a
 * value it did not push.
 *
 * Balance is counted over the instruction text, from first to last, and
 * jumps are not followed. A `return` used as an operand of a binary
 * operator jumps to the return label with the other operand's slot still
 * pushed, and the epilogue's `addq` of the frame size does not remove
 * that slot. The count in text order does not follow that path, so the
 * lemmas below say nothing about it.
 */
module CodegenStack {
  import opened CodegenAst
  import opened Codegen
  import EmitX86

  /** How one instruction moves the stack, in 8-byte slots. */
  function Eff(x: Instr): int {
    if x.Push? then 1 else if x.Pop? then -1 else 0
  }

  /** The net number of slots `c` pushes. */
  function Net(c: seq<Instr>): int
    decreases |c|
  {
    if c == [] then 0 else Net(c[..|c| - 1]) + Eff(c[|c| - 1])
  }

  function Min(x: int, y: int): int {
    if x <= y then x else y
  }

  /** The lowest depth, relative to the start, that running `c` reaches. */
  function Low(c: seq<Instr>): (r: int)
    ensures r <= 0 && r <= Net(c)
    decreases |c|
  {
    if c == [] then 0 else Min(Low(c[..|c| - 1]), Net(c))
  }

  /** Run from a stack holding `d` slots of its own, `c` never pops below them. */
  predicate Fits(c: seq<Instr>, d: int) {
    d + Low(c) >= 0
  }

  /** `c` leaves the stack as it found it and never pops what it did not push. */
  predicate Balanced(c: seq<Instr>) {
    Net(c) == 0 && Fits(c, 0)
  }

  /** Code that does not touch the stack. */
  predicate NoStack(c: seq<Instr>) {
    forall k | 0 <= k < |c| :: !c[k].Push? && !c[k].Pop?
  }

  /** Depth and lowest point of `a + b` from those of its parts. */
  lemma {:induction false} CatLow(a: seq<Instr>, b: seq<Instr>)
    ensures Net(a + b) == Net(a) + Net(b)
    ensures Low(a + b) == Min(Low(a), Net(a) + Low(b))
    decreases |b|
  {
    if b == [] {
      assert a + b == a;
    } else {
      assert (a + b)[..|a + b| - 1] == a + b[..|b| - 1];
      CatLow(a, b[..|b| - 1]);
    }
  }

  /** Running `a` then `b` fits when each fits at the depth it starts from. */
  lemma Cat(a: seq<Instr>, b: seq<Instr>, d: int)
    requires Fits(a, d) && Fits(b, d + Net(a))
    ensures Net(a + b) == Net(a) + Net(b) && Fits(a + b, d)
  {
    CatLow(a, b);
  }

  lemma {:induction false} NoStackNet(c: seq<Instr>)
    requires NoStack(c)
    ensures Net(c) == 0 && Low(c) == 0
    decreases |c|
  {
    if c != [] {
      NoStackNet(c[..|c| - 1]);
    }
  }

  lemma NoStackFits(c: seq<Instr>, d: int)
    requires NoStack(c) && d >= 0
    ensures Net(c) == 0 && Fits(c, d)
  {
    NoStackNet(c);
  }

  lemma One(x: Instr, d: int)
    requires d + Eff(x) >= 0 && d >= 0
    ensures Net([x]) == Eff(x) && Fits([x], d)
  {
    assert [x][..|[x]| - 1] == [];
  }

  lemma FitsUp(c: seq<Instr>, d: int, e: int)
    requires Fits(c, d) && d <= e
    ensures Fits(c, e)
  {
  }

  /** Only pushes: the stack grows by one slot per instruction. */
  lemma {:induction false} PushesNet(c: seq<Instr>)
    requires forall k | 0 <= k < |c| :: c[k].Push?
    ensures Net(c) == |c| && Fits(c, 0)
    decreases |c|
  {
    if c != [] {
      var init := c[..|c| - 1];
      PushesNet(init);
      assert c == init + [c[|c| - 1]];
      One(c[|c| - 1], |init|);
      Cat(init, [c[|c| - 1]], 0);
    }
  }

  /** Only pops: the stack shrinks by one slot per instruction. */
  lemma {:induction false} PopsNet(c: seq<Instr>)
    requires forall k | 0 <= k < |c| :: c[k].Pop?
    ensures Net(c) == -|c| && Fits(c, |c|)
    decreases |c|
  {
    if c != [] {
      var init := c[..|c| - 1];
      PopsNet(init);
      FitsUp(init, |init|, |c|);
      assert c == init + [c[|c| - 1]];
      One(c[|c| - 1], 1);
      Cat(init, [c[|c| - 1]], |c|);
    }
  }

  /** Saving registers around a runtime call is balanced. */
  lemma SaveAroundBalanced(regs: seq<Reg>, callee: Callee)
    ensures Balanced(SaveAround(regs, callee))
  {
    var pushes := Pushes(regs);
    var pops := PopsInOrder(regs);
    PushesNet(pushes);
    PopsNet(pops);
    One(CallFn(callee), |regs|);
    Cat(pushes, [CallFn(callee)], 0);
    Cat(pushes + [CallFn(callee)], pops, 0);
  }

  lemma StringCodeBalanced(s: seq<Base.byte>)
    ensures Balanced(StringCode(s))
  {
    var stores := seq(|s|, k requires 0 <= k < |s| => StoreByte(Int8(s[k] as int), k));
    SaveAroundBalanced(STRING_SAVED, StringMake);
    NoStackFits(stores, 0);
    One(MovImm(|s|, EmitX86.Rdi, true), 0);
    Cat([MovImm(|s|, EmitX86.Rdi, true)], SaveAround(STRING_SAVED, StringMake), 0);
    Cat([MovImm(|s|, EmitX86.Rdi, true)] + SaveAround(STRING_SAVED, StringMake), stores, 0);
  }

  /** The tail of a binary node takes back exactly the one slot its right operand was parked in. */
  lemma BinaryTailStack(op: BinOp, isString: bool, wide: bool)
    ensures Net(BinaryTail(op, isString, wide)) == -1 && Fits(BinaryTail(op, isString, wide), 1)
  {
    var tail := BinaryTail(op, isString, wide);
    if op == Add && isString {
      var head := [MovReg(EmitX86.Rax, FN_ARGS[0]), MovReg(EmitX86.Rax, FN_ARGS[1]), SubImm(8, FN_ARGS[1])];
      var rest := [MovReg(FN_ARGS[2], FN_ARGS[3]), SubImm(8, FN_ARGS[3])];
      assert tail == head + [Pop(FN_ARGS[2])] + rest + SaveAround(CONCAT_SAVED, StringConcat);
      NoStackFits(head, 1);
      One(Pop(FN_ARGS[2]), 1);
      Cat(head, [Pop(FN_ARGS[2])], 1);
      NoStackFits(rest, 0);
      Cat(head + [Pop(FN_ARGS[2])], rest, 1);
      SaveAroundBalanced(CONCAT_SAVED, StringConcat);
      Cat(head + [Pop(FN_ARGS[2])] + rest, SaveAround(CONCAT_SAVED, StringConcat), 1);
    } else {
      assert tail == [tail[0]] + tail[1..];
      One(tail[0], 1);
      NoStackFits(tail[1..], 0);
      Cat([tail[0]], tail[1..], 1);
    }
  }

  lemma AddrNoStack(p: Program, i: int)
    requires AddrOk(p, i)
    ensures NoStack(AddrCode(p, i))
    decreases i
  {
    match p.nodes[i].kind
    case Member(l, r) => AddrNoStack(p, l);
    case _ =>
  }

  /** `x + [push] + y + tail` with balanced `x`, `y` and a tail that takes the slot back. */
  lemma Parked(x: seq<Instr>, r: Reg, y: seq<Instr>, tail: seq<Instr>)
    requires Balanced(x) && Balanced(y) && Net(tail) == -1 && Fits(tail, 1)
    ensures Balanced(x + [Push(r)] + y + tail)
  {
    One(Push(r), 0);
    Cat(x, [Push(r)], 0);
    FitsUp(y, 0, 1);
    Cat(x + [Push(r)], y, 0);
    Cat(x + [Push(r)] + y, tail, 0);
  }

  lemma BalancedCat(a: seq<Instr>, b: seq<Instr>)
    requires Balanced(a) && Balanced(b)
    ensures Balanced(a + b)
  {
    Cat(a, b, 0);
  }

  lemma NoStackBalanced(c: seq<Instr>)
    requires NoStack(c)
    ensures Balanced(c)
  {
    NoStackFits(c, 0);
  }

  lemma IfBalanced(i: int, cond: seq<Instr>, thenCode: seq<Instr>, elseCode: seq<Instr>)
    requires Balanced(cond) && Balanced(thenCode) && Balanced(elseCode)
    ensures Balanced(IfCode(i, cond, thenCode, elseCode))
  {
    var j1 := [CmpZero, Je(ElseLabel(i))];
    var j2 := [Jmp(EndLabel(i)), LabelDef(ElseLabel(i))];
    var j3 := [LabelDef(EndLabel(i))];
    NoStackBalanced(j1);
    NoStackBalanced(j2);
    NoStackBalanced(j3);
    BalancedCat(cond, j1);
    BalancedCat(cond + j1, thenCode);
    BalancedCat(cond + j1 + thenCode, j2);
    BalancedCat(cond + j1 + thenCode + j2, elseCode);
    BalancedCat(cond + j1 + thenCode + j2 + elseCode, j3);
  }

  lemma WhileBalanced(i: int, cond: seq<Instr>, body: seq<Instr>)
    requires Balanced(cond) && Balanced(body)
    ensures Balanced(WhileCode(i, cond, body))
  {
    var j0 := [LabelDef(WhileStart(i))];
    var j1 := [CmpZero, Je(WhileEnd(i))];
    var j2 := [Jmp(WhileStart(i)), LabelDef(WhileEnd(i))];
    NoStackBalanced(j0);
    NoStackBalanced(j1);
    NoStackBalanced(j2);
    BalancedCat(j0, cond);
    BalancedCat(j0 + cond, j1);
    BalancedCat(j0 + cond + j1, body);
    BalancedCat(j0 + cond + j1 + body, j2);
  }

  /** A balanced prefix followed by code that does not touch the stack. */
  lemma ThenNoStack(a: seq<Instr>, b: seq<Instr>)
    requires Balanced(a) && NoStack(b)
    ensures Balanced(a + b)
  {
    NoStackBalanced(b);
    BalancedCat(a, b);
  }

  /** The system call's pushes are taken back by its pops. */
  lemma SysCallBalanced(pushes: seq<Instr>, n: nat, first: seq<Instr>)
    requires n <= 6 && Net(pushes) == n && Fits(pushes, 0) && Balanced(first)
    ensures Balanced(pushes + ArgPops(n) + first + [SyscallInstr])
  {
    PopsNet(ArgPops(n));
    Cat(pushes, ArgPops(n), 0);
    BalancedCat(pushes + ArgPops(n), first);
    ThenNoStack(pushes + ArgPops(n) + first, [SyscallInstr]);
  }

  /** Every expression's code is balanced. */
  lemma {:induction false} ExprBalanced(p: Program, i: int, fn: int)
    requires ExprOk(p, i)
    ensures Balanced(ExprCode(p, i, fn))
    decreases i, 2
  {
    var t := TypeOf(p, i);
    var wide := t.size == 8;
    var rax := EmitX86.Rax;
    match p.nodes[i].kind
    case KeywordBool(v) => NoStackBalanced([MovImm(Int8(v), rax, wide)]);
    case StringLit(tok) => StringCodeBalanced(p.text[tok]);
    case CharLit(v) => NoStackBalanced([MovImm(Int8(v), rax, wide)]);
    case LongLit(v) => NoStackBalanced([MovImm(v, rax, wide)]);
    case Binary(op, l, r) => BinaryBalanced(p, i, fn);
    case Member(_, _) =>
      AddrNoStack(p, i);
      NoStackBalanced(AddrCode(p, i) + LoadCode(t));
    case Return(a) => ReturnBalanced(p, i, fn);
    case Not(a) =>
      ExprBalanced(p, a, fn);
      ThenNoStack(ExprCode(p, a, fn), [CmpZero, SetCond(Equal)]);
    case If(c, th, e) => IfNodeBalanced(p, i, fn);
    case Println(a) => PrintlnBalanced(p, i, fn);
    case SysCall(args) => SysCallNodeBalanced(p, i, fn);
    case Block(stmts) => BlockBalanced(p, i, stmts, |stmts|, fn);
    case Var(_) =>
      AddrNoStack(p, i);
      NoStackBalanced(AddrCode(p, i) + LoadCode(t));
    case Call(c, args) => CallBalanced(p, i, fn);
    case Instance =>
      var mov := [MovImm(p.types[t.pointee].size, FN_ARGS[0], true)];
      NoStackBalanced(mov);
      SaveAroundBalanced(INSTANCE_SAVED, InstanceMake);
      BalancedCat(mov, SaveAround(INSTANCE_SAVED, InstanceMake));
  }

  lemma {:induction false} BinaryBalanced(p: Program, i: int, fn: int)
    requires ExprOk(p, i) && p.nodes[i].kind.Binary?
    ensures Balanced(ExprCode(p, i, fn))
    decreases i, 1
  {
    var Binary(op, l, r) := p.nodes[i].kind;
    var t := TypeOf(p, i);
    var tail := BinaryTail(op, t.kind == TyString, t.size == 8);
    ExprBalanced(p, r, fn);
    ExprBalanced(p, l, fn);
    BinaryTailStack(op, t.kind == TyString, t.size == 8);
    Parked(ExprCode(p, r, fn), EmitX86.Rax, ExprCode(p, l, fn), tail);
  }

  lemma {:induction false} ReturnBalanced(p: Program, i: int, fn: int)
    requires ExprOk(p, i) && p.nodes[i].kind.Return?
    ensures Balanced(ExprCode(p, i, fn))
    decreases i, 1
  {
    var a := p.nodes[i].kind.arg;
    var x := if a >= 0 then ExprCode(p, a, fn) else [];
    if a >= 0 {
      ExprBalanced(p, a, fn);
    } else {
      NoStackBalanced(x);
    }
    ThenNoStack(x, [Jmp(ReturnLabel(fn))]);
  }

  lemma {:induction false} IfNodeBalanced(p: Program, i: int, fn: int)
    requires ExprOk(p, i) && p.nodes[i].kind.If?
    ensures Balanced(ExprCode(p, i, fn))
    decreases i, 1
  {
    var If(c, th, e) := p.nodes[i].kind;
    var x := if e >= 0 then ExprCode(p, e, fn) else [];
    ExprBalanced(p, c, fn);
    ExprBalanced(p, th, fn);
    if e >= 0 {
      ExprBalanced(p, e, fn);
    } else {
      NoStackBalanced(x);
    }
    IfBalanced(i, ExprCode(p, c, fn), ExprCode(p, th, fn), x);
  }

  lemma {:induction false} PrintlnBalanced(p: Program, i: int, fn: int)
    requires ExprOk(p, i) && p.nodes[i].kind.Println?
    ensures Balanced(ExprCode(p, i, fn))
    decreases i, 1
  {
    var a := p.nodes[i].kind.arg;
    var rax := EmitX86.Rax;
    ExprBalanced(p, a, fn);
    var call := PrintlnCall(TypeOf(p, a).kind);
    NoStackBalanced([MovReg(rax, FN_ARGS[0])]);
    NoStackBalanced(call);
    NoStackBalanced([MovImm(0, rax, true)]);
    BalancedCat(ExprCode(p, a, fn), [MovReg(rax, FN_ARGS[0])]);
    BalancedCat(ExprCode(p, a, fn) + [MovReg(rax, FN_ARGS[0])], call);
    BalancedCat(ExprCode(p, a, fn) + [MovReg(rax, FN_ARGS[0])] + call, [MovImm(0, rax, true)]);
  }

  lemma {:induction false} SysCallNodeBalanced(p: Program, i: int, fn: int)
    requires ExprOk(p, i) && p.nodes[i].kind.SysCall?
    ensures Balanced(ExprCode(p, i, fn))
    decreases i, 1
  {
    SysCallArgsBalanced(p, i, p.nodes[i].kind.args, fn);
  }

  /** A system call's argument pushes, pops, first argument and `syscall` together are balanced. */
  lemma {:induction false} SysCallArgsBalanced(p: Program, i: int, args: seq<int>, fn: int)
    requires 0 < |args| <= 7 && ExprsOk(p, i, args)
    ensures Balanced(PushArgs(p, i, args, |args| - 1, fn) + ArgPops(|args| - 1) + ExprCode(p, args[0], fn) + [SyscallInstr])
    decreases i, 1, |args|, 1
  {
    PushArgsStack(p, i, args, |args| - 1, fn);
    assert 0 <= args[0] < i;
    ExprBalanced(p, args[0], fn);
    SysCallBalanced(PushArgs(p, i, args, |args| - 1, fn), |args| - 1, ExprCode(p, args[0], fn));
  }

  lemma {:induction false} CallBalanced(p: Program, i: int, fn: int)
    requires ExprOk(p, i) && p.nodes[i].kind.Call?
    ensures Balanced(ExprCode(p, i, fn))
    decreases i, 1
  {
    var Call(c, args) := p.nodes[i].kind;
    var tail := [MovReg(EmitX86.Rax, EmitX86.R10), CallReg(EmitX86.R10)];
    CallArgsBalanced(p, i, args, |args|, fn);
    ExprBalanced(p, c, fn);
    BalancedCat(CallArgs(p, i, args, |args|, fn), ExprCode(p, c, fn));
    ThenNoStack(CallArgs(p, i, args, |args|, fn) + ExprCode(p, c, fn), tail);
  }

  /** A system call's arguments 1 .. hi leave exactly `hi` slots on the stack. */
  lemma {:induction false} PushArgsStack(p: Program, i: int, args: seq<int>, hi: nat, fn: int)
    requires hi < |args| && ExprsOk(p, i, args)
    ensures Net(PushArgs(p, i, args, hi, fn)) == hi && Fits(PushArgs(p, i, args, hi, fn), 0)
    decreases i, 1, hi
  {
    if hi > 0 {
      var x := ExprCode(p, args[hi], fn);
      var rest := PushArgs(p, i, args, hi - 1, fn);
      ExprBalanced(p, args[hi], fn);
      PushArgsStack(p, i, args, hi - 1, fn);
      One(Push(EmitX86.Rax), 0);
      Cat(x, [Push(EmitX86.Rax)], 0);
      FitsUp(rest, 0, 1);
      Cat(x + [Push(EmitX86.Rax)], rest, 0);
    }
  }

  lemma BalancedThenNoStack(a: seq<Instr>, b: seq<Instr>, c: seq<Instr>)
    requires Balanced(a) && Balanced(b) && NoStack(c)
    ensures Balanced(a + b + c)
  {
    BalancedCat(a, b);
    ThenNoStack(a + b, c);
  }

  /** One call argument: evaluated, then moved to its argument register. */
  lemma CallArgStep(prev: seq<Instr>, arg: seq<Instr>, k: nat)
    requires k < 6 && Balanced(prev) && Balanced(arg)
    ensures Balanced(prev + arg + [MovReg(EmitX86.Rax, FN_ARGS[k])])
  {
    BalancedThenNoStack(prev, arg, [MovReg(EmitX86.Rax, FN_ARGS[k])]);
  }

  /** Appending the `n`-th call argument keeps the argument code balanced. */
  lemma {:induction false} CallArgsStep(p: Program, i: int, args: seq<int>, n: nat, fn: int)
    requires 0 < n <= |args| <= 6 && ExprsOk(p, i, args)
    requires Balanced(CallArgs(p, i, args, n - 1, fn))
    ensures Balanced(CallArgs(p, i, args, n, fn))
    decreases i, 1, n, 0
  {
    ExprBalanced(p, args[n - 1], fn);
    CallArgStep(CallArgs(p, i, args, n - 1, fn), ExprCode(p, args[n - 1], fn), n - 1);
  }

  lemma {:induction false} CallArgsBalanced(p: Program, i: int, args: seq<int>, n: nat, fn: int)
    requires n <= |args| <= 6 && ExprsOk(p, i, args)
    ensures Balanced(CallArgs(p, i, args, n, fn))
    decreases i, 1, n, 1
  {
    if n == 0 {
      NoStackBalanced([]);
    } else {
      CallArgsBalanced(p, i, args, n - 1, fn);
      CallArgsStep(p, i, args, n, fn);
    }
  }

  lemma {:induction false} BlockBalanced(p: Program, i: int, stmts: seq<int>, n: nat, fn: int)
    requires n <= |stmts| && StmtsOk(p, i, stmts)
    ensures Balanced(BlockCode(p, i, stmts, n, fn))
    decreases i, 1, n
  {
    if n == 0 {
      NoStackBalanced([]);
    } else {
      BlockBalanced(p, i, stmts, n - 1, fn);
      StmtBalanced(p, stmts[n - 1], fn);
      BalancedCat(BlockCode(p, i, stmts, n - 1, fn), StmtCode(p, stmts[n - 1], fn));
    }
  }

  /** Every statement's code is balanced. */
  lemma {:induction false} StmtBalanced(p: Program, i: int, fn: int)
    requires StmtOk(p, i)
    ensures Balanced(StmtCode(p, i, fn))
    decreases i, 3
  {
    var t := TypeOf(p, i);
    match p.nodes[i].kind
    case Assign(l, r) =>
      AddrNoStack(p, l);
      NoStackBalanced(AddrCode(p, l));
      ExprBalanced(p, r, fn);
      StoreStack(t.size);
      Parked(AddrCode(p, l), EmitX86.Rax, ExprCode(p, r, fn), StoreCode(t.size));
    case VarDef(_, init, _) =>
      if init < 0 {
        NoStackBalanced([]);
      } else {
        AddrNoStack(p, i);
        NoStackBalanced(AddrCode(p, i));
        ExprBalanced(p, init, fn);
        StoreStack(t.size);
        Parked(AddrCode(p, i), EmitX86.Rax, ExprCode(p, init, fn), StoreCode(t.size));
      }
    case While(c, b) =>
      ExprBalanced(p, c, fn);
      StmtBalanced(p, b, fn);
      WhileBalanced(i, ExprCode(p, c, fn), StmtCode(p, b, fn));
    case FnDecl(_, _, _, _, _) => NoStackBalanced([]);
    case ClassDecl => NoStackBalanced([]);
    case _ => ExprBalanced(p, i, fn);
  }

  lemma StoreStack(size: int)
    requires StoreSize(size)
    ensures Net(StoreCode(size)) == -1 && Fits(StoreCode(size), 1)
  {
    var c := StoreCode(size);
    assert c == [c[0]] + [c[1]];
    One(c[0], 1);
    One(c[1], 0);
    Cat([c[0]], [c[1]], 1);
  }

  lemma {:induction false} ParamStoresNoStack(p: Program, params: seq<int>, n: nat)
    requires n <= |params| && ParamsOk(p, params)
    ensures NoStack(ParamStores(p, params, n))
  {
    if n > 0 {
      ParamStoresNoStack(p, params, n - 1);
    }
  }

  /** The prolog pushes one slot, the saved `%rbp`. */
  lemma PrologStack(p: Program, params: seq<int>, size: int)
    requires ParamsOk(p, params)
    ensures Net(PrologCode(p, params, size)) == 1 && Fits(PrologCode(p, params, size), 0)
  {
    var rest := [CfiDefCfaOffset, CfiOffsetRbp, MovReg(EmitX86.Rsp, EmitX86.Rbp), CfiDefCfaRegister, SubRsp(size)] +
      ParamStores(p, params, |params|);
    ParamStoresNoStack(p, params, |params|);
    assert PrologCode(p, params, size) == [CfiStartproc] + [Push(EmitX86.Rbp)] + rest;
    One(CfiStartproc, 0);
    One(Push(EmitX86.Rbp), 0);
    Cat([CfiStartproc], [Push(EmitX86.Rbp)], 0);
    NoStackFits(rest, 1);
    Cat([CfiStartproc] + [Push(EmitX86.Rbp)], rest, 0);
  }

  /** The epilog takes that slot back. */
  lemma EpilogStack(fn: int, size: int)
    ensures Net(EpilogCode(fn, size)) == -1 && Fits(EpilogCode(fn, size), 1)
  {
    var head := [LabelDef(ReturnLabel(fn)), AddRsp(size)];
    var last := [CfiEndproc, Ret];
    assert EpilogCode(fn, size) == head + [Pop(EmitX86.Rbp)] + last;
    NoStackFits(head, 1);
    One(Pop(EmitX86.Rbp), 1);
    Cat(head, [Pop(EmitX86.Rbp)], 1);
    NoStackFits(last, 0);
    Cat(head + [Pop(EmitX86.Rbp)], last, 1);
  }

  /**
   * A whole function balances: the prolog's `push %rbp` is undone by the
   * epilog's `popq %rbp`, and the body in between is balanced.
   */
  lemma FnCodeBalanced(p: Program, d: int, pl: Platform)
    requires DeclOk(p, d)
    ensures Balanced(FnCode(p, d, pl))
  {
    if p.nodes[d].kind.FnDecl? {
      FnDeclBalanced(p, d, pl);
    } else {
      NoStackBalanced([]);
    }
  }

  /** A frame around a balanced body: the prolog's `push %rbp` is undone by the epilog's `pop %rbp`. */
  lemma FrameBalanced(head: seq<Instr>, prolog: seq<Instr>, body: seq<Instr>, exit: seq<Instr>, epilog: seq<Instr>)
    requires NoStack(head) && NoStack(exit) && Balanced(body)
    requires Net(prolog) == 1 && Fits(prolog, 0)
    requires Net(epilog) == -1 && Fits(epilog, 1)
    ensures Balanced(head + (prolog + body + exit + epilog))
  {
    FitsUp(body, 0, 1);
    Cat(prolog, body, 0);
    NoStackFits(exit, 1);
    Cat(prolog + body, exit, 0);
    Cat(prolog + body + exit, epilog, 0);
    NoStackBalanced(head);
    BalancedCat(head, prolog + body + exit + epilog);
  }

  lemma FnDeclBalanced(p: Program, d: int, pl: Platform)
    requires DeclOk(p, d) && p.nodes[d].kind.FnDecl?
    ensures Balanced(FnCode(p, d, pl))
  {
    var FnDecl(tok, body, stackSize, params, isPublic) := p.nodes[d].kind;
    var size := AlignTo16(stackSize);
    var head := (if isPublic then [Global(tok)] else []) + [LabelDef(FnLabel(tok))];
    var prolog := PrologCode(p, params, size);
    var bc := StmtCode(p, body, d);
    var exit := if d == p.mainFn then ProgramEpilogCode(pl) else [];
    var epilog := EpilogCode(d, size);
    PrologStack(p, params, size);
    StmtBalanced(p, body, d);
    EpilogStack(d, size);
    FrameBalanced(head, prolog, bc, exit, epilog);
  }

  /** The code of all declarations together is balanced. */
  lemma {:induction false} DeclsBalanced(p: Program, n: nat, pl: Platform)
    requires n <= |p.decls| && DeclsOk(p)
    ensures Balanced(DeclsCode(p, n, pl))
  {
    if n == 0 {
      NoStackBalanced([]);
    } else {
      DeclsBalanced(p, n - 1, pl);
      FnCodeBalanced(p, p.decls[n - 1], pl);
      BalancedCat(DeclsCode(p, n - 1, pl), FnCode(p, p.decls[n - 1], pl));
    }
  }
}
