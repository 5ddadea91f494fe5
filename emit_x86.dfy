/**
 * The intermediate form of `emit_x86_64.h`: one `write` system call per
 * print statement, each printing the text behind a fresh label, then an
 * `exit` system call.
 */
module EmitX86 {
  import opened Base
  import opened Parse

  /** `reg_t`. */
  datatype Reg =
    | Rax | Rbx | Rcx | Rdx | Rbp | Rsp | Rsi | Rdi
    | R8 | R9 | R10 | R11 | R12 | R13 | R14 | R15 | Rip

  /**
   * `emit_fn_arg`: the register that holds argument `position` (the system
   * call number first); positions past 8 are not implemented.
   */
  function FnArg(position: nat): (r: Option<Reg>)
    requires position < 0x1_0000
    ensures r.Some? <==> position <= 8
    ensures r.Some? ==> r.value !in {Rbx, Rbp, Rsp, R12, R13, R14, R15, Rip}
  {
    match position
    case 0 => Some(Rax)
    case 1 => Some(Rdi)
    case 2 => Some(Rsi)
    case 3 => Some(Rdx)
    case 4 => Some(Rcx)
    case 5 => Some(R8)
    case 6 => Some(R9)
    case 7 => Some(R10)
    case 8 => Some(R11)
    case _ => None
  }

  /** Which argument a register carries, if any: the inverse of `FnArg`. */
  function ArgPosition(r: Reg): (p: Option<nat>)
    ensures p.Some? ==> p.value <= 8
  {
    match r
    case Rax => Some(0)
    case Rdi => Some(1)
    case Rsi => Some(2)
    case Rdx => Some(3)
    case Rcx => Some(4)
    case R8 => Some(5)
    case R9 => Some(6)
    case R10 => Some(7)
    case R11 => Some(8)
    case _ => None
  }

  /** Each argument register holds exactly one position, so no two arguments share a register. */
  lemma FnArgInverse(position: nat, r: Reg)
    requires position < 0x1_0000
    ensures FnArg(position) == Some(r) <==> ArgPosition(r) == Some(position)
  {
  }

  lemma FnArgInjective(p: nat, q: nat)
    requires p < 0x1_0000 && q < 0x1_0000 && FnArg(p).Some? && FnArg(p) == FnArg(q)
    ensures p == q
  {
    FnArgInverse(p, FnArg(p).value);
    FnArgInverse(q, FnArg(p).value);
  }

  /** `emit_op_t`: a system call with its arguments, an integer, or the address of a label. */
  datatype Op =
    | Syscall(args: seq<Op>)
    | IntegerLiteral(value: int)
    | LabelAddress(labelId: nat)

  /** `emit_asm_t`. */
  datatype Asm = Asm(text: seq<Op>, data: seq<Op>)

  const SYSCALL_EXIT_OSX: int := 0x2000001
  const SYSCALL_WRITE_OSX: int := 0x2000004
  const STDIN: int := 0
  const STDOUT: int := 1
  const STDERR: int := 2

  /** The `write` of one print: to standard output, `len` bytes at label `labelId`. */
  function WriteOp(labelId: nat, len: int): (op: Op)
    ensures op.Syscall? && |op.args| == 4 && op.args[2] == LabelAddress(labelId)
  {
    Syscall([IntegerLiteral(SYSCALL_WRITE_OSX), IntegerLiteral(STDOUT), LabelAddress(labelId), IntegerLiteral(len)])
  }

  /** The final `exit(0)`. */
  function ExitOp(): (op: Op)
    ensures op.Syscall? && |op.args| == 2
  {
    Syscall([IntegerLiteral(SYSCALL_EXIT_OSX), IntegerLiteral(0)])
  }

  /** The source length of the argument of print statement `s`. */
  function PrintedLen(p: Parser, s: nat): int
    reads p
    requires p.Valid() && s < |p.stmts|
  {
    var stmt := p.nodes[p.stmts[s]];
    assert NodeOk(p.nodes, p.stmts[s], p.ids);
    assert NodeOk(p.nodes, stmt.arg, p.ids);
    NodeSource(p.locs, p.nodes[stmt.arg]).len
  }

  /**
   * `emit_emit`: statement `i` becomes a `write` of its argument's source
   * under label `i + 1`; an `exit` follows, and the data section stays empty.
   */
  method Emit(p: Parser) returns (a: Asm)
    requires p.Valid() && |p.nodes| > 0 && |p.stmts| > 0
    ensures |a.text| == |p.stmts| + 1 && a.data == []
    ensures forall i | 0 <= i < |p.stmts| :: a.text[i] == WriteOp(i + 1, PrintedLen(p, i))
    ensures a.text[|p.stmts|] == ExitOp()
  {
    var text: seq<Op> := [];
    var data: seq<Op> := [];
    var labelId := 0;
    for i := 0 to |p.stmts|
      invariant |text| == i && labelId == i
      invariant forall j | 0 <= j < i :: text[j] == WriteOp(j + 1, PrintedLen(p, j))
    {
      var stmt := p.nodes[p.stmts[i]];
      assert NodeOk(p.nodes, p.stmts[i], p.ids);
      var arg := p.nodes[stmt.arg];
      assert NodeOk(p.nodes, stmt.arg, p.ids);
      var sourceLen := NodeSource(p.locs, arg).len;
      labelId := labelId + 1;
      var args := [IntegerLiteral(SYSCALL_WRITE_OSX), IntegerLiteral(STDOUT), LabelAddress(labelId), IntegerLiteral(sourceLen)];
      text := text + [Syscall(args)];
    }
    var args := [IntegerLiteral(SYSCALL_EXIT_OSX), IntegerLiteral(0)];
    text := text + [Syscall(args)];
    a := Asm(text, data);
  }
}
