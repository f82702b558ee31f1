/**
 The machine that the code generator is proved against, and the interpreter of the bytecode checker: the
 instructions that they have in common are the same.
 */
module LuaEncoding {
  import M = LuaMachine
  import B = LuaBytecode

  /** The operands fit into their fields. */
  predicate Small(i: M.Instr) {
    match i
    case Move(a, b) => a < 256 && b < 512
    case LoadK(a, k) => a < 256 && k < 262144
    case LoadBool(a, _, _) => a < 256
    case LoadNil(a, b) => a < 256 && b < 512
    case GetGlobal(a, k) => a < 256 && k < 262144
    case NotOp(a, b) => a < 256 && b < 512
    case Jmp(n) => -131071 <= n <= 131072
    case Relop(_, _, b, c) => b < 512 && c < 512
    case Test(a, _) => a < 256
    case TestSet(a, b, _) => a < 256 && b < 512
  }

  function Bit(v: bool): B.Arg8 {
    if v then 1 else 0
  }

  function RelOp(rel: M.Rel): B.Op {
    match rel
    case Eq => B.EQ
    case Lt => B.LT
    case Le => B.LE
  }

  function Encoded(i: M.Instr): B.Instr
    requires Small(i)
  {
    match i
    case Move(a, b) => B.Instr(B.MOVE, a, b, 0)
    case LoadK(a, k) => B.Instr(B.LOADK, a, k / 512, k % 512)
    case LoadBool(a, v, skip) => B.Instr(B.LOADBOOL, a, Bit(v), Bit(skip))
    case LoadNil(a, b) => B.Instr(B.LOADNIL, a, b, 0)
    case GetGlobal(a, k) => B.Instr(B.GETGLOBAL, a, k / 512, k % 512)
    case NotOp(a, b) => B.Instr(B.NOT, a, b, 0)
    case Jmp(n) => B.Instr(B.JMP, 0, (n + 131071) / 512, (n + 131071) % 512)
    case Relop(rel, want, b, c) => B.Instr(RelOp(rel), Bit(want), b, c)
    case Test(a, want) => B.Instr(B.TEST, a, 0, Bit(want))
    case TestSet(a, b, want) => B.Instr(B.TESTSET, a, b, Bit(want))
  }

  /** `p` has the words of `c`. */
  predicate Encodes(p: B.Proto, c: M.Code) {
    |p.code| == |c| && forall pc {:trigger c[pc]} :: 0 <= pc < |c| ==> Small(c[pc]) && p.code[pc] == Encoded(c[pc])
  }

  lemma JumpSame(n: int)
    requires -131071 <= n <= 131072
    ensures B.SBx(Encoded(M.Jmp(n))) == n
  {
  }

  /** Only registers that the instruction touches change. */
  ghost predicate OnlyTouched(p: B.Proto, pc: nat, m: M.Machine, m': M.Machine)
    requires pc < |p.code|
  {
    forall r: nat {:trigger M.Reg(m', r)} :: M.Reg(m', r) == M.Reg(m, r) || B.Touches(p, pc, r)
  }

  lemma {:induction false} NilTouched(m: M.Machine, a: nat, b: nat, r: nat)
    requires !(a <= r <= b)
    ensures M.Reg(M.NilRange(m, a, b), r) == M.Reg(m, r)
    decreases b + 1 - a
  {
    if a <= b {
      NilTouched(M.SetReg(m, a, M.Nil), a + 1, b, r);
    }
  }

  lemma PlainTouched(w: M.World, p: B.Proto, c: M.Code, pc: nat, m: M.Machine)
    requires Encodes(p, c) && pc < |c| && !M.IsTest(c[pc]) && !c[pc].Jmp?
    ensures OnlyTouched(p, pc, m, M.Plain(w, c[pc], m))
  {
    forall r: nat ensures M.Reg(M.Plain(w, c[pc], m), r) == M.Reg(m, r) || B.Touches(p, pc, r) {
      if c[pc].LoadNil? && !(c[pc].a <= r <= c[pc].b) {
        NilTouched(m, c[pc].a, c[pc].b, r);
      }
    }
  }

  /** The next address, and the machine there. */
  datatype Next = Next(pc: nat, m: M.Machine)

  /** Where the first machine goes on, the second one can go, and the registers that change in between are touched. */
  lemma StepAgrees(w: M.World, p: B.Proto, c: M.Code, pc: nat, m: M.Machine) returns (n: Next)
    requires Encodes(p, c) && pc < |c| && M.Run(w, c, {}, {}, pc, m) != M.Stuck
    ensures B.Follows(p, pc, n.pc) && OnlyTouched(p, pc, m, n.m)
    ensures M.Run(w, c, {}, {}, pc, m) == M.Run(w, c, {}, {}, n.pc, n.m)
  {
    var i := c[pc];
    if M.IsTest(i) {
      var t := M.Tested(w, i, m);
      n := Next(if t.0 then pc + 2 + c[pc + 1].sbx else pc + 2, t.1);
      JumpSame(c[pc + 1].sbx);
    } else if i.Jmp? {
      JumpSame(i.sbx);
      n := Next(pc + 1 + i.sbx, m);
    } else {
      PlainTouched(w, p, c, pc, m);
      n := Next(if i.LoadBool? && i.skip then pc + 2 else pc + 1, M.Plain(w, i, m));
    }
  }
}
