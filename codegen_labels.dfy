/**
 * Labels and jumps of the generated code. `if` and `while` jump to labels
 * keyed by their own node index and `return` jumps to the return label of
 * the function being emitted (`current_fn_i`); the epilog defines that
 * label. So every jump in a function's code lands on a label the same code
 * defines, and the whole program has no dangling jump.
 */
module CodegenLabels {
  import opened CodegenAst
  import opened Codegen
  import EmitX86

  /** The labels `c` defines. */
  function Defs(c: seq<Instr>): set<Label>
    decreases |c|
  {
    if c == [] then {}
    else Defs(c[..|c| - 1]) + (if c[|c| - 1].LabelDef? then {c[|c| - 1].name} else {})
  }

  /** The labels `c` jumps to. */
  function Targets(c: seq<Instr>): set<Label>
    decreases |c|
  {
    if c == [] then {}
    else
      var x := c[|c| - 1];
      Targets(c[..|c| - 1]) + (if x.Jmp? || x.Je? then {x.target} else {})
  }

  /** Every jump of `c` lands on a label `c` defines or on the return label of function `fn`. */
  predicate JumpsOk(c: seq<Instr>, fn: int) {
    Targets(c) <= Defs(c) + {ReturnLabel(fn)}
  }

  /** Every jump of `c` lands on a label `c` defines. */
  predicate Closed(c: seq<Instr>) {
    Targets(c) <= Defs(c)
  }

  /** Code with no jump. */
  predicate NoJumps(c: seq<Instr>) {
    forall k | 0 <= k < |c| :: !c[k].Jmp? && !c[k].Je?
  }

  lemma {:induction false} DefsCat(a: seq<Instr>, b: seq<Instr>)
    ensures Defs(a + b) == Defs(a) + Defs(b)
    decreases |b|
  {
    if b == [] {
      assert a + b == a;
    } else {
      assert (a + b)[..|a + b| - 1] == a + b[..|b| - 1];
      DefsCat(a, b[..|b| - 1]);
    }
  }

  lemma {:induction false} TargetsCat(a: seq<Instr>, b: seq<Instr>)
    ensures Targets(a + b) == Targets(a) + Targets(b)
    decreases |b|
  {
    if b == [] {
      assert a + b == a;
    } else {
      assert (a + b)[..|a + b| - 1] == a + b[..|b| - 1];
      TargetsCat(a, b[..|b| - 1]);
    }
  }

  lemma LabelsCat(a: seq<Instr>, b: seq<Instr>)
    ensures Defs(a + b) == Defs(a) + Defs(b)
    ensures Targets(a + b) == Targets(a) + Targets(b)
  {
    DefsCat(a, b);
    TargetsCat(a, b);
  }

  lemma {:induction false} NoJumpsTargets(c: seq<Instr>)
    requires NoJumps(c)
    ensures Targets(c) == {}
    decreases |c|
  {
    if c != [] {
      NoJumpsTargets(c[..|c| - 1]);
    }
  }

  lemma Single(x: Instr)
    ensures Defs([x]) == (if x.LabelDef? then {x.name} else {})
    ensures Targets([x]) == (if x.Jmp? || x.Je? then {x.target} else {})
  {
    assert [x][..|[x]| - 1] == [];
  }

  lemma JumpsOkCat(a: seq<Instr>, b: seq<Instr>, fn: int)
    requires JumpsOk(a, fn) && JumpsOk(b, fn)
    ensures JumpsOk(a + b, fn)
  {
    LabelsCat(a, b);
  }

  lemma ThenNoJumps(a: seq<Instr>, b: seq<Instr>, fn: int)
    requires JumpsOk(a, fn) && NoJumps(b)
    ensures JumpsOk(a + b, fn)
  {
    NoJumpsTargets(b);
    LabelsCat(a, b);
  }

  lemma NoJumpsOk(c: seq<Instr>, fn: int)
    requires NoJumps(c)
    ensures JumpsOk(c, fn)
  {
    NoJumpsTargets(c);
  }

  lemma Pair(x: Instr, y: Instr)
    ensures Defs([x, y]) == Defs([x]) + Defs([y])
    ensures Targets([x, y]) == Targets([x]) + Targets([y])
  {
    assert [x, y] == [x] + [y];
    LabelsCat([x], [y]);
  }

  /** The fixed pieces of `if` code: the `je` to the else label, the `jmp` to the end, and both labels. */
  lemma IfPieces(i: int)
    ensures Defs([CmpZero, Je(ElseLabel(i))]) == {} && Targets([CmpZero, Je(ElseLabel(i))]) == {ElseLabel(i)}
    ensures Defs([Jmp(EndLabel(i)), LabelDef(ElseLabel(i))]) == {ElseLabel(i)}
    ensures Targets([Jmp(EndLabel(i)), LabelDef(ElseLabel(i))]) == {EndLabel(i)}
    ensures Defs([LabelDef(EndLabel(i))]) == {EndLabel(i)} && Targets([LabelDef(EndLabel(i))]) == {}
  {
    Pair(CmpZero, Je(ElseLabel(i)));
    Pair(Jmp(EndLabel(i)), LabelDef(ElseLabel(i)));
    Single(CmpZero);
    Single(Je(ElseLabel(i)));
    Single(Jmp(EndLabel(i)));
    Single(LabelDef(ElseLabel(i)));
    Single(LabelDef(EndLabel(i)));
  }

  lemma IfDefs(i: int, cond: seq<Instr>, thenCode: seq<Instr>, elseCode: seq<Instr>)
    ensures Defs(IfCode(i, cond, thenCode, elseCode)) ==
      Defs(cond) + Defs(thenCode) + Defs(elseCode) + {ElseLabel(i), EndLabel(i)}
  {
    var j1 := [CmpZero, Je(ElseLabel(i))];
    var j2 := [Jmp(EndLabel(i)), LabelDef(ElseLabel(i))];
    var j3 := [LabelDef(EndLabel(i))];
    IfPieces(i);
    DefsCat(cond, j1);
    DefsCat(cond + j1, thenCode);
    DefsCat(cond + j1 + thenCode, j2);
    DefsCat(cond + j1 + thenCode + j2, elseCode);
    DefsCat(cond + j1 + thenCode + j2 + elseCode, j3);
  }

  lemma IfTargets(i: int, cond: seq<Instr>, thenCode: seq<Instr>, elseCode: seq<Instr>)
    ensures Targets(IfCode(i, cond, thenCode, elseCode)) ==
      Targets(cond) + Targets(thenCode) + Targets(elseCode) + {ElseLabel(i), EndLabel(i)}
  {
    var j1 := [CmpZero, Je(ElseLabel(i))];
    var j2 := [Jmp(EndLabel(i)), LabelDef(ElseLabel(i))];
    var j3 := [LabelDef(EndLabel(i))];
    IfPieces(i);
    TargetsCat(cond, j1);
    TargetsCat(cond + j1, thenCode);
    TargetsCat(cond + j1 + thenCode, j2);
    TargetsCat(cond + j1 + thenCode + j2, elseCode);
    TargetsCat(cond + j1 + thenCode + j2 + elseCode, j3);
  }

  /** `if`: the `je` to the else label and the `jmp` to the end label both land in the node's own code. */
  lemma IfJumps(i: int, cond: seq<Instr>, thenCode: seq<Instr>, elseCode: seq<Instr>, fn: int)
    requires JumpsOk(cond, fn) && JumpsOk(thenCode, fn) && JumpsOk(elseCode, fn)
    ensures JumpsOk(IfCode(i, cond, thenCode, elseCode), fn)
    ensures {ElseLabel(i), EndLabel(i)} <= Defs(IfCode(i, cond, thenCode, elseCode))
  {
    IfDefs(i, cond, thenCode, elseCode);
    IfTargets(i, cond, thenCode, elseCode);
  }

  /** The fixed pieces of `while` code: the start label, the exit `je`, the back `jmp` and the end label. */
  lemma WhilePieces(i: int)
    ensures Defs([LabelDef(WhileStart(i))]) == {WhileStart(i)} && Targets([LabelDef(WhileStart(i))]) == {}
    ensures Defs([CmpZero, Je(WhileEnd(i))]) == {} && Targets([CmpZero, Je(WhileEnd(i))]) == {WhileEnd(i)}
    ensures Defs([Jmp(WhileStart(i)), LabelDef(WhileEnd(i))]) == {WhileEnd(i)}
    ensures Targets([Jmp(WhileStart(i)), LabelDef(WhileEnd(i))]) == {WhileStart(i)}
  {
    Pair(CmpZero, Je(WhileEnd(i)));
    Pair(Jmp(WhileStart(i)), LabelDef(WhileEnd(i)));
    Single(LabelDef(WhileStart(i)));
    Single(CmpZero);
    Single(Je(WhileEnd(i)));
    Single(Jmp(WhileStart(i)));
    Single(LabelDef(WhileEnd(i)));
  }

  lemma WhileDefs(i: int, cond: seq<Instr>, body: seq<Instr>)
    ensures Defs(WhileCode(i, cond, body)) == Defs(cond) + Defs(body) + {WhileStart(i), WhileEnd(i)}
  {
    var j0 := [LabelDef(WhileStart(i))];
    var j1 := [CmpZero, Je(WhileEnd(i))];
    var j2 := [Jmp(WhileStart(i)), LabelDef(WhileEnd(i))];
    WhilePieces(i);
    DefsCat(j0, cond);
    DefsCat(j0 + cond, j1);
    DefsCat(j0 + cond + j1, body);
    DefsCat(j0 + cond + j1 + body, j2);
  }

  lemma WhileTargets(i: int, cond: seq<Instr>, body: seq<Instr>)
    ensures Targets(WhileCode(i, cond, body)) == Targets(cond) + Targets(body) + {WhileStart(i), WhileEnd(i)}
  {
    var j0 := [LabelDef(WhileStart(i))];
    var j1 := [CmpZero, Je(WhileEnd(i))];
    var j2 := [Jmp(WhileStart(i)), LabelDef(WhileEnd(i))];
    WhilePieces(i);
    TargetsCat(j0, cond);
    TargetsCat(j0 + cond, j1);
    TargetsCat(j0 + cond + j1, body);
    TargetsCat(j0 + cond + j1 + body, j2);
  }

  /** `while`: the exit `je` and the back `jmp` both land in the node's own code. */
  lemma WhileJumps(i: int, cond: seq<Instr>, body: seq<Instr>, fn: int)
    requires JumpsOk(cond, fn) && JumpsOk(body, fn)
    ensures JumpsOk(WhileCode(i, cond, body), fn)
    ensures {WhileStart(i), WhileEnd(i)} <= Defs(WhileCode(i, cond, body))
  {
    WhileDefs(i, cond, body);
    WhileTargets(i, cond, body);
  }

  lemma SaveAroundNoJumps(regs: seq<Reg>, callee: Callee)
    ensures NoJumps(SaveAround(regs, callee))
  {
  }

  lemma StringNoJumps(s: seq<Base.byte>)
    ensures NoJumps(StringCode(s))
  {
    SaveAroundNoJumps(STRING_SAVED, StringMake);
  }

  lemma BinaryTailNoJumps(op: BinOp, isString: bool, wide: bool)
    ensures NoJumps(BinaryTail(op, isString, wide))
  {
    SaveAroundNoJumps(CONCAT_SAVED, StringConcat);
  }

  lemma {:induction false} AddrNoJumps(p: Program, i: int)
    requires AddrOk(p, i)
    ensures NoJumps(AddrCode(p, i))
    decreases i
  {
    match p.nodes[i].kind
    case Member(l, r) => AddrNoJumps(p, l);
    case _ =>
  }

  /** In every expression's code, each jump lands in that code or on the current function's return label. */
  lemma {:induction false} ExprJumps(p: Program, i: int, fn: int)
    requires ExprOk(p, i)
    ensures JumpsOk(ExprCode(p, i, fn), fn)
    decreases i, 2
  {
    match p.nodes[i].kind
    case KeywordBool(v) => LeafJumps(p, i, fn);
    case StringLit(tok) => LeafJumps(p, i, fn);
    case CharLit(v) => LeafJumps(p, i, fn);
    case LongLit(v) => LeafJumps(p, i, fn);
    case Binary(op, l, r) => BinaryJumps(p, i, fn);
    case Member(_, _) => LeafJumps(p, i, fn);
    case Return(a) => ReturnJumps(p, i, fn);
    case Not(a) => NotJumps(p, i, fn);
    case If(c, th, e) => IfNodeJumps(p, i, fn);
    case Println(a) => PrintlnJumps(p, i, fn);
    case SysCall(args) => SysCallJumps(p, i, fn);
    case Block(stmts) => BlockJumps(p, i, stmts, |stmts|, fn);
    case Var(_) => LeafJumps(p, i, fn);
    case Call(c, args) => CallJumps(p, i, fn);
    case Instance => LeafJumps(p, i, fn);
  }

  /** Literals, addresses and `instance` nodes jump nowhere. */
  lemma LeafJumps(p: Program, i: int, fn: int)
    requires ExprOk(p, i)
    requires p.nodes[i].kind.KeywordBool? || p.nodes[i].kind.StringLit? || p.nodes[i].kind.CharLit? ||
      p.nodes[i].kind.LongLit? || p.nodes[i].kind.Member? || p.nodes[i].kind.Var? || p.nodes[i].kind.Instance?
    ensures JumpsOk(ExprCode(p, i, fn), fn)
  {
    match p.nodes[i].kind {
      case StringLit(tok) => StringNoJumps(p.text[tok]);
      case Member(_, _) => AddrNoJumps(p, i);
      case Var(_) => AddrNoJumps(p, i);
      case Instance => SaveAroundNoJumps(INSTANCE_SAVED, InstanceMake);
      case _ =>
    }
    NoJumpsOk(ExprCode(p, i, fn), fn);
  }

  lemma {:induction false} NotJumps(p: Program, i: int, fn: int)
    requires ExprOk(p, i) && p.nodes[i].kind.Not?
    ensures JumpsOk(ExprCode(p, i, fn), fn)
    decreases i, 1
  {
    var a := p.nodes[i].kind.arg;
    ExprJumps(p, a, fn);
    ThenNoJumps(ExprCode(p, a, fn), [CmpZero, SetCond(Equal)], fn);
  }

  lemma {:induction false} PrintlnJumps(p: Program, i: int, fn: int)
    requires ExprOk(p, i) && p.nodes[i].kind.Println?
    ensures JumpsOk(ExprCode(p, i, fn), fn)
    decreases i, 1
  {
    var a := p.nodes[i].kind.arg;
    var rax := EmitX86.Rax;
    ExprJumps(p, a, fn);
    var tail := [MovReg(rax, FN_ARGS[0])] + PrintlnCall(TypeOf(p, a).kind) + [MovImm(0, rax, true)];
    ThenNoJumps(ExprCode(p, a, fn), tail, fn);
    assert ExprCode(p, i, fn) == ExprCode(p, a, fn) + tail;
  }

  lemma {:induction false} BinaryJumps(p: Program, i: int, fn: int)
    requires ExprOk(p, i) && p.nodes[i].kind.Binary?
    ensures JumpsOk(ExprCode(p, i, fn), fn)
    decreases i, 1
  {
    var Binary(op, l, r) := p.nodes[i].kind;
    var t := TypeOf(p, i);
    ExprJumps(p, r, fn);
    ExprJumps(p, l, fn);
    ThenNoJumps(ExprCode(p, r, fn), [Push(EmitX86.Rax)], fn);
    BinaryTailNoJumps(op, t.kind == TyString, t.size == 8);
    JumpsThenNoJumps(ExprCode(p, r, fn) + [Push(EmitX86.Rax)], ExprCode(p, l, fn), BinaryTail(op, t.kind == TyString, t.size == 8), fn);
  }

  /** `return` jumps to `.L.return.<current_fn_i>`. */
  lemma {:induction false} ReturnJumps(p: Program, i: int, fn: int)
    requires ExprOk(p, i) && p.nodes[i].kind.Return?
    ensures JumpsOk(ExprCode(p, i, fn), fn)
    ensures ReturnLabel(fn) in Targets(ExprCode(p, i, fn))
    decreases i, 1
  {
    var a := p.nodes[i].kind.arg;
    var x := if a >= 0 then ExprCode(p, a, fn) else [];
    if a >= 0 {
      ExprJumps(p, a, fn);
    } else {
      NoJumpsOk(x, fn);
    }
    Single(Jmp(ReturnLabel(fn)));
    LabelsCat(x, [Jmp(ReturnLabel(fn))]);
  }

  lemma {:induction false} IfNodeJumps(p: Program, i: int, fn: int)
    requires ExprOk(p, i) && p.nodes[i].kind.If?
    ensures JumpsOk(ExprCode(p, i, fn), fn)
    decreases i, 1
  {
    var If(c, th, e) := p.nodes[i].kind;
    var x := if e >= 0 then ExprCode(p, e, fn) else [];
    ExprJumps(p, c, fn);
    ExprJumps(p, th, fn);
    if e >= 0 {
      ExprJumps(p, e, fn);
    } else {
      NoJumpsOk(x, fn);
    }
    IfJumps(i, ExprCode(p, c, fn), ExprCode(p, th, fn), x, fn);
  }

  lemma JumpsThenNoJumps(a: seq<Instr>, b: seq<Instr>, c: seq<Instr>, fn: int)
    requires JumpsOk(a, fn) && JumpsOk(b, fn) && NoJumps(c)
    ensures JumpsOk(a + b + c, fn)
  {
    JumpsOkCat(a, b, fn);
    ThenNoJumps(a + b, c, fn);
  }

  lemma SysCallShapeJumps(pushes: seq<Instr>, n: nat, first: seq<Instr>, fn: int)
    requires n <= 6 && JumpsOk(pushes, fn) && JumpsOk(first, fn)
    ensures JumpsOk(pushes + ArgPops(n) + first + [SyscallInstr], fn)
  {
    ThenNoJumps(pushes, ArgPops(n), fn);
    JumpsThenNoJumps(pushes + ArgPops(n), first, [SyscallInstr], fn);
  }

  lemma {:induction false} SysCallJumps(p: Program, i: int, fn: int)
    requires ExprOk(p, i) && p.nodes[i].kind.SysCall?
    ensures JumpsOk(ExprCode(p, i, fn), fn)
    decreases i, 1
  {
    SysCallArgsJumps(p, i, p.nodes[i].kind.args, fn);
  }

  /** A system call's argument pushes, pops, first argument and `syscall` together jump only to known labels. */
  lemma {:induction false} SysCallArgsJumps(p: Program, i: int, args: seq<int>, fn: int)
    requires 0 < |args| <= 7 && ExprsOk(p, i, args)
    ensures JumpsOk(PushArgs(p, i, args, |args| - 1, fn) + ArgPops(|args| - 1) + ExprCode(p, args[0], fn) + [SyscallInstr], fn)
    decreases i, 1, |args|, 1
  {
    PushArgsJumps(p, i, args, |args| - 1, fn);
    assert 0 <= args[0] < i;
    ExprJumps(p, args[0], fn);
    SysCallShapeJumps(PushArgs(p, i, args, |args| - 1, fn), |args| - 1, ExprCode(p, args[0], fn), fn);
  }

  lemma {:induction false} CallJumps(p: Program, i: int, fn: int)
    requires ExprOk(p, i) && p.nodes[i].kind.Call?
    ensures JumpsOk(ExprCode(p, i, fn), fn)
    decreases i, 1
  {
    var Call(c, args) := p.nodes[i].kind;
    CallArgsJumps(p, i, args, |args|, fn);
    ExprJumps(p, c, fn);
    JumpsThenNoJumps(CallArgs(p, i, args, |args|, fn), ExprCode(p, c, fn), [MovReg(EmitX86.Rax, EmitX86.R10), CallReg(EmitX86.R10)], fn);
  }

  lemma {:induction false} PushArgsJumps(p: Program, i: int, args: seq<int>, hi: nat, fn: int)
    requires hi < |args| && ExprsOk(p, i, args)
    ensures JumpsOk(PushArgs(p, i, args, hi, fn), fn)
    decreases i, 1, hi
  {
    if hi == 0 {
      NoJumpsOk([], fn);
    } else {
      ExprJumps(p, args[hi], fn);
      PushArgsJumps(p, i, args, hi - 1, fn);
      ThenNoJumps(ExprCode(p, args[hi], fn), [Push(EmitX86.Rax)], fn);
      JumpsOkCat(ExprCode(p, args[hi], fn) + [Push(EmitX86.Rax)], PushArgs(p, i, args, hi - 1, fn), fn);
    }
  }

  /** One call argument: evaluated, then moved to its argument register. */
  lemma CallArgStepJumps(prev: seq<Instr>, arg: seq<Instr>, k: nat, fn: int)
    requires k < 6 && JumpsOk(prev, fn) && JumpsOk(arg, fn)
    ensures JumpsOk(prev + arg + [MovReg(EmitX86.Rax, FN_ARGS[k])], fn)
  {
    JumpsThenNoJumps(prev, arg, [MovReg(EmitX86.Rax, FN_ARGS[k])], fn);
  }

  lemma {:induction false} CallArgsJumps(p: Program, i: int, args: seq<int>, n: nat, fn: int)
    requires n <= |args| <= 6 && ExprsOk(p, i, args)
    ensures JumpsOk(CallArgs(p, i, args, n, fn), fn)
    decreases i, 1, n, 1
  {
    if n == 0 {
      NoJumpsOk([], fn);
    } else {
      CallArgsJumps(p, i, args, n - 1, fn);
      CallArgsStepJumps(p, i, args, n, fn);
    }
  }

  /** Appending the `n`-th call argument keeps the argument code's jumps known. */
  lemma {:induction false} CallArgsStepJumps(p: Program, i: int, args: seq<int>, n: nat, fn: int)
    requires 0 < n <= |args| <= 6 && ExprsOk(p, i, args)
    requires JumpsOk(CallArgs(p, i, args, n - 1, fn), fn)
    ensures JumpsOk(CallArgs(p, i, args, n, fn), fn)
    decreases i, 1, n, 0
  {
    ExprJumps(p, args[n - 1], fn);
    CallArgStepJumps(CallArgs(p, i, args, n - 1, fn), ExprCode(p, args[n - 1], fn), n - 1, fn);
  }

  lemma {:induction false} BlockJumps(p: Program, i: int, stmts: seq<int>, n: nat, fn: int)
    requires n <= |stmts| && StmtsOk(p, i, stmts)
    ensures JumpsOk(BlockCode(p, i, stmts, n, fn), fn)
    decreases i, 1, n
  {
    if n == 0 {
      NoJumpsOk([], fn);
    } else {
      BlockJumps(p, i, stmts, n - 1, fn);
      StmtJumps(p, stmts[n - 1], fn);
      JumpsOkCat(BlockCode(p, i, stmts, n - 1, fn), StmtCode(p, stmts[n - 1], fn), fn);
    }
  }

  /** An assignment: the address is pushed, the value computed, then stored through the address. */
  lemma StoreShapeJumps(addr: seq<Instr>, value: seq<Instr>, size: int, fn: int)
    requires NoJumps(addr) && JumpsOk(value, fn) && StoreSize(size)
    ensures JumpsOk(addr + [Push(EmitX86.Rax)] + value + StoreCode(size), fn)
  {
    NoJumpsOk(addr + [Push(EmitX86.Rax)], fn);
    JumpsThenNoJumps(addr + [Push(EmitX86.Rax)], value, StoreCode(size), fn);
  }

  /** In every statement's code, each jump lands in that code or on the current function's return label. */
  lemma {:induction false} StmtJumps(p: Program, i: int, fn: int)
    requires StmtOk(p, i)
    ensures JumpsOk(StmtCode(p, i, fn), fn)
    decreases i, 3
  {
    var t := TypeOf(p, i);
    match p.nodes[i].kind
    case Assign(l, r) =>
      AddrNoJumps(p, l);
      ExprJumps(p, r, fn);
      StoreShapeJumps(AddrCode(p, l), ExprCode(p, r, fn), t.size, fn);
    case VarDef(_, init, _) =>
      if init < 0 {
        NoJumpsOk([], fn);
      } else {
        AddrNoJumps(p, i);
        ExprJumps(p, init, fn);
        StoreShapeJumps(AddrCode(p, i), ExprCode(p, init, fn), t.size, fn);
      }
    case While(c, b) =>
      ExprJumps(p, c, fn);
      StmtJumps(p, b, fn);
      WhileJumps(i, ExprCode(p, c, fn), StmtCode(p, b, fn), fn);
    case FnDecl(_, _, _, _, _) => NoJumpsOk([], fn);
    case ClassDecl => NoJumpsOk([], fn);
    case _ => ExprJumps(p, i, fn);
  }

  lemma {:induction false} ParamStoresNoJumps(p: Program, params: seq<int>, n: nat)
    requires n <= |params| && ParamsOk(p, params)
    ensures NoJumps(ParamStores(p, params, n))
  {
    if n > 0 {
      ParamStoresNoJumps(p, params, n - 1);
    }
  }

  /**
   * A function's code is closed: the return jumps of its body land on the
   * return label its epilog defines, every other jump on a label of the body.
   */
  lemma FnCodeClosed(p: Program, d: int, pl: Platform)
    requires DeclOk(p, d)
    ensures Closed(FnCode(p, d, pl))
  {
    if p.nodes[d].kind.FnDecl? {
      FnDeclClosed(p, d, pl);
    } else {
      NoJumpsTargets([]);
    }
  }

  /** A frame around a body whose jumps land in it or on the return label the epilog defines. */
  lemma FrameClosed(head: seq<Instr>, prolog: seq<Instr>, body: seq<Instr>, exit: seq<Instr>, epilog: seq<Instr>, fn: int)
    requires NoJumps(head) && NoJumps(prolog) && NoJumps(exit) && NoJumps(epilog)
    requires JumpsOk(body, fn) && ReturnLabel(fn) in Defs(epilog)
    ensures Closed(head + (prolog + body + exit + epilog))
  {
    NoJumpsTargets(head);
    NoJumpsTargets(prolog);
    NoJumpsTargets(exit);
    NoJumpsTargets(epilog);
    LabelsCat(prolog, body);
    LabelsCat(prolog + body, exit);
    LabelsCat(prolog + body + exit, epilog);
    LabelsCat(head, prolog + body + exit + epilog);
  }

  lemma EpilogDefs(fn: int, size: int)
    ensures NoJumps(EpilogCode(fn, size)) && ReturnLabel(fn) in Defs(EpilogCode(fn, size))
  {
    var epilog := EpilogCode(fn, size);
    assert epilog == [LabelDef(ReturnLabel(fn))] + epilog[1..];
    Single(LabelDef(ReturnLabel(fn)));
    DefsCat([LabelDef(ReturnLabel(fn))], epilog[1..]);
  }

  lemma FnDeclClosed(p: Program, d: int, pl: Platform)
    requires DeclOk(p, d) && p.nodes[d].kind.FnDecl?
    ensures Closed(FnCode(p, d, pl))
  {
    var FnDecl(tok, body, stackSize, params, isPublic) := p.nodes[d].kind;
    var size := AlignTo16(stackSize);
    var head := (if isPublic then [Global(tok)] else []) + [LabelDef(FnLabel(tok))];
    var prolog := PrologCode(p, params, size);
    var bc := StmtCode(p, body, d);
    var exit := if d == p.mainFn then ProgramEpilogCode(pl) else [];
    var epilog := EpilogCode(d, size);
    ParamStoresNoJumps(p, params, |params|);
    StmtJumps(p, body, d);
    EpilogDefs(d, size);
    FrameClosed(head, prolog, bc, exit, epilog, d);
  }

  /** No jump of the emitted program dangles. */
  lemma {:induction false} DeclsClosed(p: Program, n: nat, pl: Platform)
    requires n <= |p.decls| && DeclsOk(p)
    ensures Closed(DeclsCode(p, n, pl))
  {
    if n == 0 {
      NoJumpsTargets([]);
    } else {
      DeclsClosed(p, n - 1, pl);
      FnCodeClosed(p, p.decls[n - 1], pl);
      LabelsCat(DeclsCode(p, n - 1, pl), FnCode(p, p.decls[n - 1], pl));
    }
  }
}
