/**
 * The typed syntax tree that `codegen.h` walks: an arena of nodes, each with
 * the index of its type, plus the list of top-level declarations. Child
 * references are arena indices, `-1` standing for an absent child.
 *
 * The predicates `AddrOk`, `ExprOk` and `StmtOk` say when `emit_addr`,
 * `emit_expr` and `emit_stmt` run to the end instead of stopping on one of
 * their `CHECK`, `UNREACHABLE` or `UNIMPLEMENTED` guards. They also ask that
 * a node's children sit at smaller indices than the node itself (the parser
 * creates children first), which is what makes the recursive walk finish.
 */
module CodegenAst {
  import opened Base

  /** `mkt_type_kind_t`. */
  datatype TypeKind =
    | TyBool | TyByte | TyChar | TyShort | TyInt | TyLong
    | TyString | TyPtr | TyFn | TyClass

  /** `mkt_type_t`: kind, size in bytes and, for a pointer, the pointee's type index. */
  datatype Type = Type(kind: TypeKind, size: int, pointee: int)

  /** The arithmetic and comparison nodes that share `mkt_binary_t`. */
  datatype BinOp = Modulo | Divide | Multiply | Subtract | Add | Lt | Le | Eq | Neq

  predicate IsComparison(op: BinOp) {
    op in {Lt, Le, Eq, Neq}
  }

  /** `mkt_node_t`'s kind with the payload of its union member. */
  datatype Kind =
    | KeywordBool(value: int)
    | StringLit(tok: nat)
    | CharLit(value: int)
    | LongLit(value: int)
    | Binary(op: BinOp, lhs: int, rhs: int)
    | Member(lhs: int, rhs: int)
    | Assign(lhs: int, rhs: int)
    | Return(arg: int)
    | Not(arg: int)
    | If(cond: int, thenBranch: int, elseBranch: int)
    | Println(arg: int)
    | SysCall(args: seq<int>)
    | Block(stmts: seq<int>)
    | Var(decl: int)
    | VarDef(stackOffset: int, init: int, nameTok: nat)
    | Call(callee: int, args: seq<int>)
    | Instance
    | FnDecl(nameTok: nat, body: int, stackSize: int, params: seq<int>, isPublic: bool)
    | ClassDecl
    | While(cond: int, body: int)

  datatype Node = Node(typeI: int, kind: Kind)

  /**
   * What the emitter reads from `parser_t`: the node arena, the type table,
   * the text of each token, the declaration list and the `main` function.
   */
  datatype Program = Program(
    nodes: seq<Node>,
    types: seq<Type>,
    text: seq<seq<byte>>,
    decls: seq<int>,
    mainFn: int)

  predicate HasType(p: Program, i: int) {
    0 <= i < |p.nodes| && 0 <= p.nodes[i].typeI < |p.types|
  }

  function TypeOf(p: Program, i: int): (t: Type)
    requires HasType(p, i)
    ensures t in p.types
  {
    p.types[p.nodes[i].typeI]
  }

  /** `println` knows how to print values of these kinds (codegen.h:497-516). */
  predicate Printable(k: TypeKind) {
    k !in {TyFn, TyClass}
  }

  /** The sizes `emit_store` can store (codegen.h:163-172). */
  predicate StoreSize(size: int) {
    size in {1, 2, 4, 8}
  }

  /** A declaration whose address `emit_addr` can take directly. */
  predicate IsDecl(n: Node) {
    n.kind.VarDef? || n.kind.FnDecl?
  }

  /** Indices `xs` all name earlier nodes that `emit_expr` accepts (the argument condition of `ExprKindOk`). */
  predicate ExprsOk(p: Program, i: int, xs: seq<int>) {
    forall k | 0 <= k < |xs| :: 0 <= xs[k] < i && ExprOk(p, xs[k])
  }

  /** Indices `xs` all name earlier nodes that `emit_stmt` accepts (the block condition of `ExprKindOk`). */
  predicate StmtsOk(p: Program, i: int, xs: seq<int>) {
    forall k | 0 <= k < |xs| :: 0 <= xs[k] < i && StmtOk(p, xs[k])
  }

  /** `emit_addr(i)` finishes: a variable, a variable definition, a member access or a function. */
  predicate AddrOk(p: Program, i: int)
    decreases i
  {
    0 <= i < |p.nodes| &&
    match p.nodes[i].kind
    case Var(d) => 0 <= d < |p.nodes| && IsDecl(p.nodes[d])
    case VarDef(_, _, _) => true
    case Member(l, r) =>
      0 <= l < i && AddrOk(p, l) && 0 <= r < |p.nodes| && p.nodes[r].kind.VarDef?
    case FnDecl(_, _, _, _, _) => true
    case _ => false
  }

  /** `emit_expr(i)` finishes. */
  predicate ExprOk(p: Program, i: int)
    decreases i, 1, 1
  {
    HasType(p, i) && ExprKindOk(p, i, p.nodes[i].kind)
  }

  /** The per-kind conditions of `emit_expr` on node `i`, whose kind is `k`. */
  predicate ExprKindOk(p: Program, i: int, k: Kind)
    requires HasType(p, i)
    decreases i, 1, 0
  {
    match k
    case KeywordBool(_) => true
    case StringLit(tok) => tok < |p.text|
    case CharLit(_) => true
    case LongLit(_) => true
    case Binary(_, l, r) => 0 <= l < i && 0 <= r < i && ExprOk(p, l) && ExprOk(p, r)
    case Member(_, _) => AddrOk(p, i)
    case Assign(_, _) => false
    case Return(a) => a < i && (a >= 0 ==> ExprOk(p, a))
    case Not(a) => 0 <= a < i && ExprOk(p, a)
    case If(c, t, e) =>
      0 <= c < i && 0 <= t < i && e < i &&
      ExprOk(p, c) && ExprOk(p, t) && (e >= 0 ==> ExprOk(p, e))
    case Println(a) => 0 <= a < i && ExprOk(p, a) && Printable(TypeOf(p, a).kind)
    case SysCall(args) =>
      0 < |args| <= 7 && forall k | 0 <= k < |args| :: 0 <= args[k] < i && ExprOk(p, args[k])
    case Block(stmts) => forall k | 0 <= k < |stmts| :: 0 <= stmts[k] < i && StmtOk(p, stmts[k])
    case Var(_) => AddrOk(p, i)
    case Call(c, args) =>
      |args| <= 6 && 0 <= c < i && ExprOk(p, c) &&
      forall k | 0 <= k < |args| :: 0 <= args[k] < i && ExprOk(p, args[k])
    case Instance => TypeOf(p, i).kind == TyPtr && 0 <= TypeOf(p, i).pointee < |p.types|
    case _ => false
  }

  /** `emit_stmt(i)` finishes. */
  predicate StmtOk(p: Program, i: int)
    decreases i, 2, 1
  {
    HasType(p, i) && StmtKindOk(p, i, p.nodes[i].kind)
  }

  /** The per-kind conditions of `emit_stmt` on node `i`, whose kind is `k`. */
  predicate StmtKindOk(p: Program, i: int, k: Kind)
    requires HasType(p, i)
    decreases i, 2, 0
  {
    match k
    case Assign(l, r) =>
      AddrOk(p, l) && 0 <= r < i && ExprOk(p, r) && StoreSize(TypeOf(p, i).size)
    case VarDef(_, init, _) =>
      init < 0 || (init < i && ExprOk(p, init) && StoreSize(TypeOf(p, i).size))
    case While(c, b) => 0 <= c < i && 0 <= b < i && ExprOk(p, c) && StmtOk(p, b)
    case FnDecl(_, _, _, _, _) => true
    case ClassDecl => true
    case _ => ExprOk(p, i)
  }

  /** `fn_prolog` accepts the parameters: at most six variable definitions at non-negative offsets. */
  predicate ParamsOk(p: Program, params: seq<int>) {
    |params| <= 6 &&
    forall k | 0 <= k < |params| ::
      0 <= params[k] < |p.nodes| && p.nodes[params[k]].kind.VarDef? &&
      p.nodes[params[k]].kind.stackOffset >= 0
  }

  /** Declaration `d` passes the checks of `emit`'s loop; non-functions are skipped. */
  predicate DeclOk(p: Program, d: int) {
    0 <= d < |p.nodes| &&
    (p.nodes[d].kind.FnDecl? ==>
      var f := p.nodes[d].kind;
      f.stackSize >= 0 && StmtOk(p, f.body) && ParamsOk(p, f.params))
  }
}
