/**
 * Saving registers around a call into the runtime. Before calling
 * `mkt_string_make`, `mkt_string_concat` or `mkt_instance_make` the
 * generated code pushes a list of registers and pops them back after the
 * call. A stack gives values back last-in first-out, so the pops must name
 * the registers in the reverse order of the pushes. `codegen.h` pops them in
 * the same order it pushed them. That mirrors the values among the saved
 * registers, so a call argument already sitting in `%rsi` is lost.
 * `SaveAround` (module Codegen) is the sequence `codegen.h` prints, and the
 * rest of the model uses it; `SaveAroundFixed` is the corrected sequence.
 */
module CodegenSaves {
  import opened Base
  import opened Codegen
  import EmitX86

  /** The value of every register. */
  type RegFile = Reg -> int

  /** Registers and stack; the top of the stack is the last element. */
  datatype Machine = Machine(regs: RegFile, stack: seq<int>)

  /** `f` with register `r` set to `v`. */
  function Update(f: RegFile, r: Reg, v: int): RegFile {
    x => if x == r then v else f(x)
  }

  /**
   * Runs pushes, pops and runtime calls; a call leaves the registers as
   * `after` says, since the callee may clobber any caller-saved register.
   * A pop from an empty stack, or any other instruction, gives `None`.
   */
  function Exec(code: seq<Instr>, m: Machine, after: RegFile): Option<Machine>
    decreases |code|
  {
    if code == [] then Some(m)
    else
      match code[0]
      case Push(r) => Exec(code[1..], Machine(m.regs, m.stack + [m.regs(r)]), after)
      case Pop(r) =>
        if m.stack == [] then None
        else Exec(code[1..], Machine(Update(m.regs, r, m.stack[|m.stack| - 1]), m.stack[..|m.stack| - 1]), after)
      case CallFn(_) => Exec(code[1..], Machine(after, m.stack), after)
      case _ => None
  }

  /** Running `a + b` runs `a`, then `b` from where `a` stopped. */
  lemma {:induction false} ExecCat(a: seq<Instr>, b: seq<Instr>, m: Machine, after: RegFile)
    ensures Exec(a + b, m, after) == (if Exec(a, m, after).Some? then Exec(b, Exec(a, m, after).value, after) else None)
    decreases |a|
  {
    if a == [] {
      assert a + b == b;
    } else {
      assert (a + b)[0] == a[0];
      assert (a + b)[1..] == a[1..] + b;
      match a[0]
      case Push(r) => ExecCat(a[1..], b, Machine(m.regs, m.stack + [m.regs(r)]), after);
      case Pop(r) =>
        if m.stack != [] {
          ExecCat(a[1..], b, Machine(Update(m.regs, r, m.stack[|m.stack| - 1]), m.stack[..|m.stack| - 1]), after);
        }
      case CallFn(_) => ExecCat(a[1..], b, Machine(after, m.stack), after);
      case _ =>
    }
  }

  lemma ExecPush(r: Reg, rest: seq<Instr>, m: Machine, after: RegFile)
    ensures Exec([Push(r)] + rest, m, after) == Exec(rest, Machine(m.regs, m.stack + [m.regs(r)]), after)
  {
    assert ([Push(r)] + rest)[0] == Push(r) && ([Push(r)] + rest)[1..] == rest;
  }

  lemma ExecPop(r: Reg, rest: seq<Instr>, m: Machine, after: RegFile)
    requires m.stack != []
    ensures Exec([Pop(r)] + rest, m, after) ==
      Exec(rest, Machine(Update(m.regs, r, m.stack[|m.stack| - 1]), m.stack[..|m.stack| - 1]), after)
  {
    assert ([Pop(r)] + rest)[0] == Pop(r) && ([Pop(r)] + rest)[1..] == rest;
  }

  lemma ExecCall(c: Callee, rest: seq<Instr>, m: Machine, after: RegFile)
    ensures Exec([CallFn(c)] + rest, m, after) == Exec(rest, Machine(after, m.stack), after)
  {
    assert ([CallFn(c)] + rest)[0] == CallFn(c) && ([CallFn(c)] + rest)[1..] == rest;
  }

  /** One pop per register, last register first, so each gets back the value it pushed. */
  function PopsReversed(regs: seq<Reg>): (code: seq<Instr>)
    ensures |code| == |regs|
  {
    seq(|regs|, k requires 0 <= k < |regs| => Pop(regs[|regs| - 1 - k]))
  }

  /** The values the pushes leave on the stack, first pushed first. */
  function PushAll(regs: seq<Reg>, f: RegFile): (vals: seq<int>)
    ensures |vals| == |regs|
  {
    seq(|regs|, k requires 0 <= k < |regs| => f(regs[k]))
  }

  lemma PushesFront(regs: seq<Reg>)
    requires regs != []
    ensures Pushes(regs) == [Push(regs[0])] + Pushes(regs[1..])
  {
  }

  lemma PopsReversedBack(regs: seq<Reg>)
    requires regs != []
    ensures PopsReversed(regs) == [Pop(regs[|regs| - 1])] + PopsReversed(regs[..|regs| - 1])
  {
  }

  lemma PopsInOrderFront(regs: seq<Reg>)
    requires regs != []
    ensures PopsInOrder(regs) == [Pop(regs[0])] + PopsInOrder(regs[1..])
  {
  }

  lemma PushAllFront(regs: seq<Reg>, f: RegFile)
    requires regs != []
    ensures PushAll(regs, f) == [f(regs[0])] + PushAll(regs[1..], f)
  {
  }

  lemma PushAllBack(regs: seq<Reg>, f: RegFile)
    requires regs != []
    ensures PushAll(regs, f) == PushAll(regs[..|regs| - 1], f) + [f(regs[|regs| - 1])]
  {
  }

  /** The corrected save sequence: the pops name the registers in the reverse order of the pushes. */
  function SaveAroundFixed(regs: seq<Reg>, callee: Callee): seq<Instr> {
    Pushes(regs) + ([CallFn(callee)] + PopsReversed(regs))
  }

  predicate Distinct(regs: seq<Reg>) {
    forall a, b | 0 <= a < b < |regs| :: regs[a] != regs[b]
  }

  lemma SaveAroundShape(regs: seq<Reg>, callee: Callee)
    ensures SaveAround(regs, callee) == Pushes(regs) + ([CallFn(callee)] + PopsInOrder(regs))
  {
    assert Pushes(regs) + [CallFn(callee)] + PopsInOrder(regs) == Pushes(regs) + ([CallFn(callee)] + PopsInOrder(regs));
  }

  /** Pushing leaves the registers alone and puts their values on the stack in order. */
  lemma {:induction false} PushesRun(regs: seq<Reg>, f: RegFile, s: seq<int>, after: RegFile)
    ensures Exec(Pushes(regs), Machine(f, s), after) == Some(Machine(f, s + PushAll(regs, f)))
    decreases |regs|
  {
    if regs == [] {
      assert s + PushAll(regs, f) == s;
    } else {
      PushesFront(regs);
      ExecPush(regs[0], Pushes(regs[1..]), Machine(f, s), after);
      PushesRun(regs[1..], f, s + [f(regs[0])], after);
      PushAllFront(regs, f);
      assert s + [f(regs[0])] + PushAll(regs[1..], f) == s + PushAll(regs, f);
    }
  }

  /** Popping in reverse gives every saved register its pushed value and leaves the rest alone. */
  lemma {:induction false} PopsReversedRun(regs: seq<Reg>, f: RegFile, g: RegFile, s: seq<int>, after: RegFile, r: Reg)
    ensures var m := Exec(PopsReversed(regs), Machine(g, s + PushAll(regs, f)), after);
      m.Some? && m.value.stack == s && m.value.regs(r) == (if r in regs then f(r) else g(r))
    decreases |regs|
  {
    if regs == [] {
      assert s + PushAll(regs, f) == s;
    } else {
      var init := regs[..|regs| - 1];
      var last := regs[|regs| - 1];
      var st := s + PushAll(regs, f);
      PushAllBack(regs, f);
      PopsReversedBack(regs);
      assert st == (s + PushAll(init, f)) + [f(last)];
      assert st[|st| - 1] == f(last);
      assert st[..|st| - 1] == s + PushAll(init, f);
      var g1 := Update(g, last, f(last));
      var m1 := Machine(g1, s + PushAll(init, f));
      assert Machine(Update(g, last, st[|st| - 1]), st[..|st| - 1]) == m1;
      ExecPop(last, PopsReversed(init), Machine(g, st), after);
      assert Exec(PopsReversed(regs), Machine(g, st), after) == Exec(PopsReversed(init), m1, after);
      PopsReversedRun(init, f, g1, s, after, r);
      assert regs == init + [last];
      assert r in regs <==> r in init || r == last;
    }
  }

  /** Corrected: the pushes and the call, then the pops run against the pushed values. */
  lemma SaveAroundRun(regs: seq<Reg>, callee: Callee, before: RegFile, after: RegFile, s: seq<int>)
    ensures Exec(SaveAroundFixed(regs, callee), Machine(before, s), after) ==
      Exec(PopsReversed(regs), Machine(after, s + PushAll(regs, before)), after)
  {
    var tail := [CallFn(callee)] + PopsReversed(regs);
    ExecCat(Pushes(regs), tail, Machine(before, s), after);
    PushesRun(regs, before, s, after);
    ExecCall(callee, PopsReversed(regs), Machine(before, s + PushAll(regs, before)), after);
  }

  /**
   * Registers listed in the corrected save sequence come back with the value
   * they had before the call; every other register keeps what the callee left.
   */
  lemma SaveAroundRestores(regs: seq<Reg>, callee: Callee, before: RegFile, after: RegFile, s: seq<int>, r: Reg)
    ensures var m := Exec(SaveAroundFixed(regs, callee), Machine(before, s), after);
      m.Some? && m.value.stack == s && m.value.regs(r) == (if r in regs then before(r) else after(r))
  {
    SaveAroundRun(regs, callee, before, after, s);
    PopsReversedRun(regs, before, after, s, after, r);
  }

  /** Pops leave a register they do not name alone. */
  lemma {:induction false} PopsKeep(pops: seq<Reg>, g: RegFile, st: seq<int>, after: RegFile, r: Reg)
    requires r !in pops && |pops| <= |st|
    ensures var m := Exec(PopsInOrder(pops), Machine(g, st), after);
      m.Some? && m.value.regs(r) == g(r)
    decreases |pops|
  {
    if pops != [] {
      PopsInOrderFront(pops);
      ExecPop(pops[0], PopsInOrder(pops[1..]), Machine(g, st), after);
      PopsKeep(pops[1..], Update(g, pops[0], st[|st| - 1]), st[..|st| - 1], after, r);
    }
  }

  /** Popping distinct registers in push order: the `j`-th pop takes the `j`-th value from the top. */
  lemma {:induction false} PopsInOrderRun(pops: seq<Reg>, g: RegFile, s: seq<int>, vals: seq<int>, after: RegFile, j: nat)
    requires |vals| == |pops| && Distinct(pops) && j < |pops|
    ensures var m := Exec(PopsInOrder(pops), Machine(g, s + vals), after);
      m.Some? && m.value.regs(pops[j]) == vals[|vals| - 1 - j]
    decreases |pops|
  {
    var st := s + vals;
    var rest := vals[..|vals| - 1];
    assert st[|st| - 1] == vals[|vals| - 1];
    assert st[..|st| - 1] == s + rest;
    PopsInOrderFront(pops);
    ExecPop(pops[0], PopsInOrder(pops[1..]), Machine(g, st), after);
    var g1 := Update(g, pops[0], vals[|vals| - 1]);
    assert Exec(PopsInOrder(pops), Machine(g, st), after) == Exec(PopsInOrder(pops[1..]), Machine(g1, s + rest), after);
    if j == 0 {
      assert pops[0] !in pops[1..] by {
        forall k | 0 <= k < |pops| - 1
          ensures pops[1..][k] != pops[0]
        {
          assert pops[1..][k] == pops[k + 1];
        }
      }
      PopsKeep(pops[1..], g1, s + rest, after, pops[0]);
    } else {
      assert Distinct(pops[1..]) by {
        forall a, b | 0 <= a < b < |pops| - 1
          ensures pops[1..][a] != pops[1..][b]
        {
          assert pops[1..][a] == pops[a + 1] && pops[1..][b] == pops[b + 1];
        }
      }
      PopsInOrderRun(pops[1..], g1, s, rest, after, j - 1);
      assert pops[1..][j - 1] == pops[j];
    }
  }

  /** As written: the pushes and the call, then the pops run against the pushed values. */
  lemma AsWrittenRun(regs: seq<Reg>, callee: Callee, before: RegFile, after: RegFile, s: seq<int>)
    ensures Exec(SaveAround(regs, callee), Machine(before, s), after) ==
      Exec(PopsInOrder(regs), Machine(after, s + PushAll(regs, before)), after)
  {
    var tail := [CallFn(callee)] + PopsInOrder(regs);
    SaveAroundShape(regs, callee);
    ExecCat(Pushes(regs), tail, Machine(before, s), after);
    PushesRun(regs, before, s, after);
    ExecCall(callee, PopsInOrder(regs), Machine(before, s + PushAll(regs, before)), after);
  }

  /**
   * As written, the `j`-th saved register gets the value of the register
   * saved `j`-th from the end: the saved values come back mirrored.
   */
  lemma SaveAroundMirrors(regs: seq<Reg>, callee: Callee, before: RegFile, after: RegFile, s: seq<int>, j: nat)
    requires Distinct(regs) && j < |regs|
    ensures var m := Exec(SaveAround(regs, callee), Machine(before, s), after);
      m.Some? && m.value.regs(regs[j]) == before(regs[|regs| - 1 - j])
  {
    AsWrittenRun(regs, callee, before, after, s);
    PopsMirror(regs, before, after, s, j, Exec(SaveAround(regs, callee), Machine(before, s), after));
  }

  lemma PopsMirror(regs: seq<Reg>, before: RegFile, after: RegFile, s: seq<int>, j: nat, m: Option<Machine>)
    requires Distinct(regs) && j < |regs|
    requires m == Exec(PopsInOrder(regs), Machine(after, s + PushAll(regs, before)), after)
    ensures m.Some? && m.value.regs(regs[j]) == before(regs[|regs| - 1 - j])
  {
    var vals := PushAll(regs, before);
    PopsInOrderRun(regs, after, s, vals, after, j);
    assert vals[|vals| - 1 - j] == before(regs[|regs| - 1 - j]);
  }

  /**
   * A string literal as the third argument of a call, as in `f(1, 2, "s")`:
   * when the string's code runs, `%rsi` already holds the second argument
   * (2). The sequence `codegen.h` prints hands `%rsi` the old `%r12` instead
   * (0 here); the corrected sequence gives the 2 back.
   */
  lemma StringSaveLosesRsi(after: RegFile, s: seq<int>)
    ensures var before := (r: Reg) => if r == EmitX86.Rsi then 2 else 0;
      Exec(SaveAround(STRING_SAVED, StringMake), Machine(before, s), after).Some? &&
      Exec(SaveAround(STRING_SAVED, StringMake), Machine(before, s), after).value.regs(EmitX86.Rsi) == 0 &&
      Exec(SaveAroundFixed(STRING_SAVED, StringMake), Machine(before, s), after).Some? &&
      Exec(SaveAroundFixed(STRING_SAVED, StringMake), Machine(before, s), after).value.regs(EmitX86.Rsi) == 2
  {
    var before := (r: Reg) => if r == EmitX86.Rsi then 2 else 0;
    assert STRING_SAVED[3] == EmitX86.Rsi && STRING_SAVED[8] == EmitX86.R12;
    SaveAroundMirrors(STRING_SAVED, StringMake, before, after, s, 3);
    SaveAroundRestores(STRING_SAVED, StringMake, before, after, s, EmitX86.Rsi);
  }
}
