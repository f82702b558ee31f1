/**
 What a Lua expression built from `and`, `or`, `not` and comparisons means (section 2.5.3 of the
 Lua 5.1 Reference Manual), and the part of the virtual machine that runs its code.
 */
module LuaMachine {
  const NO_JUMP: int := -1
  const NO_REG: nat := 255      // MAXARG_A
  const BITRK: nat := 256
  const MAXINDEXRK: nat := 255

  datatype Value = Nil | Bool(b: bool) | Other(n: int)

  predicate Falsy(v: Value) {
    v == Nil || v == Bool(false)
  }

  datatype CompOp = EQ | NE | LT | LE | GT | GE

  datatype Expr =
    | Null
    | True
    | False
    | Str(k: nat)               // a string, already constant number `k`
    | Num(n: int)
    | Local(r: nat)
    | Global(k: nat)            // the global named by constant number `k`
    | Not(e: Expr)
    | And(l: Expr, r_: Expr)
    | Or(l: Expr, r_: Expr)
    | Comp(op: CompOp, l: Expr, r_: Expr)

  datatype Rel = Eq | Lt | Le

  /** What an evaluation does that others can notice: it may call metamethods. */
  datatype Event = Read(k: nat) | Compared(rel: Rel, x: Value, y: Value)

  /** Everything outside the function: its constants, and how globals and comparisons answer after
      whatever has happened so far. */
  datatype World = World(
    consts: seq<Value>,
    glob: (seq<Event>, nat) -> Value,
    cmp: (seq<Event>, Rel, Value, Value) -> bool)

  function Const(w: World, k: nat): Value {
    if k < |w.consts| then w.consts[k] else Nil
  }

  // ---------- Meaning of expressions ----------

  datatype Result = Result(value: Value, log: seq<Event>)

  function Compare(w: World, rel: Rel, x: Value, y: Value, want: bool, log: seq<Event>): Result {
    Result(Bool(w.cmp(log, rel, x, y) == want), log + [Compared(rel, x, y)])
  }

  /** A comparison of two values; `a > b` is `b < a`. */
  function CompareOp(w: World, op: CompOp, x: Value, y: Value, log: seq<Event>): Result {
    match op
    case EQ => Compare(w, Eq, x, y, true, log)
    case NE => Compare(w, Eq, x, y, false, log)
    case LT => Compare(w, Lt, x, y, true, log)
    case LE => Compare(w, Le, x, y, true, log)
    case GT => Compare(w, Lt, y, x, true, log)
    case GE => Compare(w, Le, y, x, true, log)
  }

  function Eval(w: World, e: Expr, regs: map<nat, Value>, log: seq<Event>): Result {
    match e
    case Null => Result(Nil, log)
    case True => Result(Bool(true), log)
    case False => Result(Bool(false), log)
    case Str(k) => Result(Const(w, k), log)
    case Num(n) => Result(Other(n), log)
    case Local(r) => Result(Get(regs, r), log)
    case Global(k) => Result(w.glob(log, k), log + [Read(k)])
    case Not(x) =>
      var a := Eval(w, x, regs, log);
      Result(Bool(Falsy(a.value)), a.log)
    case And(x, y) =>
      var a := Eval(w, x, regs, log);
      if Falsy(a.value) then a else Eval(w, y, regs, a.log)
    case Or(x, y) =>
      var a := Eval(w, x, regs, log);
      if Falsy(a.value) then Eval(w, y, regs, a.log) else a
    case Comp(op, x, y) =>
      var a := Eval(w, x, regs, log);
      var b := Eval(w, y, regs, a.log);
      CompareOp(w, op, a.value, b.value, b.log)
  }

  /** `x > y` is `y < x` and `x >= y` is `y <= x`, with the operands evaluated from left to right all the same. */
  lemma {:induction false} Exchanged(w: World, x: Expr, y: Expr, regs: map<nat, Value>, log: seq<Event>)
    ensures var a := Eval(w, x, regs, log);
            var b := Eval(w, y, regs, a.log);
            && Eval(w, Comp(GT, x, y), regs, log) == CompareOp(w, LT, b.value, a.value, b.log)
            && Eval(w, Comp(GE, x, y), regs, log) == CompareOp(w, LE, b.value, a.value, b.log)
            && Eval(w, Comp(LT, x, y), regs, log) == CompareOp(w, GT, b.value, a.value, b.log)
            && Eval(w, Comp(LE, x, y), regs, log) == CompareOp(w, GE, b.value, a.value, b.log)
  {
  }

  /** What an operator answers about two values is what the world answers to `==`, `<` or `<=`. */
  lemma Answers(w: World, x: Value, y: Value, log: seq<Event>)
    ensures CompareOp(w, LT, x, y, log).value == Bool(w.cmp(log, Lt, x, y))
    ensures CompareOp(w, LE, x, y, log).value == Bool(w.cmp(log, Le, x, y))
    ensures CompareOp(w, EQ, x, y, log).value == Bool(w.cmp(log, Eq, x, y))
    ensures CompareOp(w, GT, x, y, log).value == Bool(w.cmp(log, Lt, y, x))
    ensures CompareOp(w, GE, x, y, log).value == Bool(w.cmp(log, Le, y, x))
    ensures CompareOp(w, NE, x, y, log).value == Bool(!w.cmp(log, Eq, x, y))
  {
  }

  /** `x ~= y` is `not (x == y)`: the same value and the same calls. */
  lemma {:induction false} Unequal(w: World, x: Expr, y: Expr, regs: map<nat, Value>, log: seq<Event>)
    ensures Eval(w, Comp(NE, x, y), regs, log) == Eval(w, Not(Comp(EQ, x, y)), regs, log)
  {
    assert Not(Comp(EQ, x, y)).e == Comp(EQ, x, y);
  }

  /** `not` exchanges `and` and `or`. */
  lemma {:induction false} NotAndOr(w: World, x: Expr, y: Expr, regs: map<nat, Value>, log: seq<Event>)
    ensures Eval(w, Not(And(x, y)), regs, log) == Eval(w, Or(Not(x), Not(y)), regs, log)
    ensures Eval(w, Not(Or(x, y)), regs, log) == Eval(w, And(Not(x), Not(y)), regs, log)
  {
    hide CompareOp;
    ShortCircuit(w, x, y, regs, log);
    ShortCircuit(w, Not(x), Not(y), regs, log);
  }

  /** Only nil and false are false. */
  lemma {:induction false} NotValue(w: World, x: Expr, regs: map<nat, Value>, log: seq<Event>)
    ensures var v := Eval(w, x, regs, log).value;
            Eval(w, Not(x), regs, log).value == Bool(v == Nil || v == Bool(false))
  {
  }

  /** `and` and `or` yield an operand, and the second one only if the first does not decide. */
  lemma {:induction false} ShortCircuit(w: World, x: Expr, y: Expr, regs: map<nat, Value>, log: seq<Event>)
    ensures var a := Eval(w, x, regs, log);
            && (a.value in {Nil, Bool(false)} ==>
                  Eval(w, And(x, y), regs, log) == a && Eval(w, Or(x, y), regs, log) == Eval(w, y, regs, a.log))
            && (a.value !in {Nil, Bool(false)} ==>
                  Eval(w, Or(x, y), regs, log) == a && Eval(w, And(x, y), regs, log) == Eval(w, y, regs, a.log))
  {
  }

  /** Locals below `n` are all an expression refers to. */
  predicate Scoped(e: Expr, n: nat, consts: seq<Value>) {
    match e
    case Local(r) => r < n
    case Str(k) => k < |consts| && !Falsy(consts[k])
    case Not(x) => Scoped(x, n, consts)
    case And(x, y) => Scoped(x, n, consts) && Scoped(y, n, consts)
    case Or(x, y) => Scoped(x, n, consts) && Scoped(y, n, consts)
    case Comp(_, x, y) => Scoped(x, n, consts) && Scoped(y, n, consts)
    case _ => true
  }

  function Get(regs: map<nat, Value>, r: nat): Value {
    if r in regs then regs[r] else Nil
  }

  predicate Agree(regs: map<nat, Value>, regs': map<nat, Value>, n: nat) {
    forall r: nat {:trigger Get(regs', r)} :: r < n ==> Get(regs', r) == Get(regs, r)
  }

  lemma {:induction false} EvalAgree(w: World, e: Expr, regs: map<nat, Value>, regs': map<nat, Value>,
      log: seq<Event>, n: nat, consts: seq<Value>)
    requires Scoped(e, n, consts) && Agree(regs, regs', n)
    ensures Eval(w, e, regs', log) == Eval(w, e, regs, log)
  {
    match e
    case Not(x) => EvalAgree(w, x, regs, regs', log, n, consts);
    case And(x, y) =>
      EvalAgree(w, x, regs, regs', log, n, consts);
      EvalAgree(w, y, regs, regs', Eval(w, x, regs, log).log, n, consts);
    case Or(x, y) =>
      EvalAgree(w, x, regs, regs', log, n, consts);
      EvalAgree(w, y, regs, regs', Eval(w, x, regs, log).log, n, consts);
    case Comp(_, x, y) =>
      EvalAgree(w, x, regs, regs', log, n, consts);
      EvalAgree(w, y, regs, regs', Eval(w, x, regs, log).log, n, consts);
    case _ =>
  }

  // ---------- Instructions ----------

  datatype Instr =
    | Move(a: nat, b: nat)
    | LoadK(a: nat, bx: nat)
    | LoadBool(a: nat, v: bool, skip: bool)
    | LoadNil(a: nat, b: nat)
    | GetGlobal(a: nat, bx: nat)
    | NotOp(a: nat, b: nat)
    | Jmp(sbx: int)
    | Relop(rel: Rel, want: bool, b: nat, c: nat)
    | Test(a: nat, want: bool)
    | TestSet(a: nat, b: nat, want: bool)

  type Code = seq<Instr>

  /** `testTMode`: the next instruction is a jump, taken if the test succeeds. */
  predicate IsTest(i: Instr) {
    i.Relop? || i.Test? || i.TestSet?
  }

  datatype Machine = Machine(regs: map<nat, Value>, log: seq<Event>)

  function Reg(m: Machine, r: nat): Value {
    Get(m.regs, r)
  }

  function SetReg(m: Machine, r: nat, v: Value): Machine {
    m.(regs := m.regs[r := v])
  }

  /** `RK(x)` */
  function RK(w: World, m: Machine, x: nat): Value {
    if x >= BITRK then Const(w, x - BITRK) else Reg(m, x)
  }

  function NilRange(m: Machine, a: nat, b: nat): Machine
    decreases b + 1 - a
  {
    if a > b then m else NilRange(SetReg(m, a, Nil), a + 1, b)
  }

  /** Executing an instruction that neither tests nor jumps. */
  function Plain(w: World, i: Instr, m: Machine): Machine {
    match i
    case Move(a, b) => SetReg(m, a, Reg(m, b))
    case LoadK(a, k) => SetReg(m, a, Const(w, k))
    case LoadBool(a, v, _) => SetReg(m, a, Bool(v))
    case LoadNil(a, b) => NilRange(m, a, b)
    case GetGlobal(a, k) => SetReg(m, a, w.glob(m.log, k)).(log := m.log + [Read(k)])
    case NotOp(a, b) => SetReg(m, a, Bool(Falsy(Reg(m, b))))
    case _ => m
  }

  /** Does the test succeed?  The machine after it has looked. */
  function Tested(w: World, i: Instr, m: Machine): (r: (bool, Machine))
  {
    match i
    case Relop(rel, want, b, c) =>
      (w.cmp(m.log, rel, RK(w, m, b), RK(w, m, c)) == want,
          m.(log := m.log + [Compared(rel, RK(w, m, b), RK(w, m, c))]))
    case Test(a, want) => (Falsy(Reg(m, a)) != want, m)
    case TestSet(a, b, want) =>
      // a pending test has no register yet
      (Falsy(Reg(m, b)) != want, if Falsy(Reg(m, b)) != want && a != NO_REG then SetReg(m, a, Reg(m, b)) else m)
    case _ => (false, m)
  }

  // ---------- Running code with open ends ----------

  /** Falling through to the end, leaving through the open jump `j`, or going wrong. */
  datatype Outcome = Done(m: Machine) | Exit(j: nat, m: Machine) | Stuck

  /** Run `c` from `pc`.  The jumps in `open` have no target yet; those in `here` go to the end. */
  function Run(w: World, c: Code, open: set<nat>, here: set<nat>, pc: nat, m: Machine): Outcome
    decreases |c| - pc, 1
  {
    if pc > |c| then Stuck
    else if pc == |c| then Done(m)
    else if IsTest(c[pc]) then
      if pc + 1 < |c| && c[pc + 1].Jmp? then
        var t := Tested(w, c[pc], m);
        if t.0 then Jump(w, c, open, here, pc + 1, t.1) else Run(w, c, open, here, pc + 2, t.1)
      else Stuck
    else if c[pc].Jmp? then
      if pc > 0 && IsTest(c[pc - 1]) then Stuck     // the jump of a test, entered from elsewhere
      else Jump(w, c, open, here, pc, m)
    else if c[pc].LoadBool? && c[pc].skip then Run(w, c, open, here, pc + 2, Plain(w, c[pc], m))
    else Run(w, c, open, here, pc + 1, Plain(w, c[pc], m))
  }

  function Jump(w: World, c: Code, open: set<nat>, here: set<nat>, j: nat, m: Machine): Outcome
    requires j < |c| && c[j].Jmp?
    decreases |c| - j, 0
  {
    if j in open then Exit(j, m)
    else if j in here then Done(m)
    else if j < j + 1 + c[j].sbx <= |c| then Run(w, c, open, here, j + 1 + c[j].sbx, m)
    else Stuck
  }

  // ---------- Code that is well known ----------

  /** Two jumps around two loads turn a comparison of registers 0 and 1 into a value of register 2. */
  lemma RelationIdiom(w: World, m: Machine)
    ensures var code := [Relop(Lt, true, 0, 1), Jmp(1), LoadBool(2, false, true), LoadBool(2, true, false)];
            var r := Eval(w, Comp(LT, Local(0), Local(1)), m.regs, m.log);
            Run(w, code, {}, {}, 0, m) == Done(Machine(m.regs[2 := r.value], r.log))
  {
  }

  /** A TESTSET with 1 and a jump over a MOVE: `or`; with 0, `and`. */
  lemma LogicIdioms(w: World, m: Machine)
    ensures var r := Eval(w, Or(Local(0), Local(1)), m.regs, m.log);
            Run(w, [TestSet(2, 0, true), Jmp(1), Move(2, 1)], {}, {}, 0, m) == Done(SetReg(m, 2, r.value))
    ensures var r := Eval(w, And(Local(0), Local(1)), m.regs, m.log);
            Run(w, [TestSet(2, 0, false), Jmp(1), Move(2, 1)], {}, {}, 0, m) == Done(SetReg(m, 2, r.value))
  {
  }

  /** A TEST with 0 jumps over what is done for a true value, here NOT. */
  lemma TestIdiom(w: World, m: Machine)
    ensures var t := Falsy(Reg(m, 0));
            Run(w, [Test(0, false), Jmp(1), NotOp(0, 0)], {}, {}, 0, m) ==
                Done(if t then m else SetReg(m, 0, Bool(false)))
  {
  }
}
