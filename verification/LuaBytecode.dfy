/**
 Lua 5.1 bytecode: the format of instructions and prototypes, and what the interpreter does with an
 instruction, as far as control flow and the operands it touches go.
 */
module LuaBytecode {
  datatype Op =
    | MOVE | LOADK | LOADBOOL | LOADNIL | GETUPVAL | GETGLOBAL | GETTABLE | SETGLOBAL | SETUPVAL | SETTABLE
    | NEWTABLE | SELF | ADD | SUB | MUL | DIV | MOD | POW | UNM | NOT | LEN | CONCAT
    | JMP | EQ | LT | LE | TEST | TESTSET | CALL | TAILCALL | RETURN | FORLOOP | FORPREP | TFORLOOP
    | SETLIST | CLOSE | CLOSURE | VARARG
    | BAD(n: nat)              // one of the unused codes from NUM_OPCODES on

  type Arg8 = n: nat | n < 256
  type Arg9 = n: nat | n < 512

  /** A word of 32 bits, taken apart. */
  datatype Instr = Instr(op: Op, a: Arg8, b: Arg9, c: Arg9)

  /** The word 0, with which `symbexec` reports failure. */
  const ZERO := Instr(MOVE, 0, 0, 0)

  const MAXARG_sBx: int := 131071
  const BITRK: nat := 256
  const MAXSTACK: nat := 250
  const NO_REG: nat := 255

  function Bx(i: Instr): nat { i.b * 512 + i.c }

  function SBx(i: Instr): int { Bx(i) - MAXARG_sBx }

  datatype Format = ABC | ABX | ASBX
  datatype ArgMode = ArgN | ArgU | ArgR | ArgK

  /** A row of `luaP_opmodes`. */
  datatype Mode = Mode(isTest: bool, setsA: bool, b: ArgMode, c: ArgMode, format: Format)

  function ModeOf(op: Op): Mode {
    match op
    case MOVE => Mode(false, true, ArgR, ArgN, ABC)
    case LOADK => Mode(false, true, ArgK, ArgN, ABX)
    case LOADBOOL => Mode(false, true, ArgU, ArgU, ABC)
    case LOADNIL => Mode(false, true, ArgR, ArgN, ABC)
    case GETUPVAL => Mode(false, true, ArgU, ArgN, ABC)
    case GETGLOBAL => Mode(false, true, ArgK, ArgN, ABX)
    case GETTABLE => Mode(false, true, ArgR, ArgK, ABC)
    case SETGLOBAL => Mode(false, false, ArgK, ArgN, ABX)
    case SETUPVAL => Mode(false, false, ArgU, ArgN, ABC)
    case SETTABLE => Mode(false, false, ArgK, ArgK, ABC)
    case NEWTABLE => Mode(false, true, ArgU, ArgU, ABC)
    case SELF => Mode(false, true, ArgR, ArgK, ABC)
    case ADD => Mode(false, true, ArgK, ArgK, ABC)
    case SUB => Mode(false, true, ArgK, ArgK, ABC)
    case MUL => Mode(false, true, ArgK, ArgK, ABC)
    case DIV => Mode(false, true, ArgK, ArgK, ABC)
    case MOD => Mode(false, true, ArgK, ArgK, ABC)
    case POW => Mode(false, true, ArgK, ArgK, ABC)
    case UNM => Mode(false, true, ArgR, ArgN, ABC)
    case NOT => Mode(false, true, ArgR, ArgN, ABC)
    case LEN => Mode(false, true, ArgR, ArgN, ABC)
    case CONCAT => Mode(false, true, ArgR, ArgR, ABC)
    case JMP => Mode(false, false, ArgR, ArgN, ASBX)
    case EQ => Mode(true, false, ArgK, ArgK, ABC)
    case LT => Mode(true, false, ArgK, ArgK, ABC)
    case LE => Mode(true, false, ArgK, ArgK, ABC)
    case TEST => Mode(true, true, ArgR, ArgU, ABC)
    case TESTSET => Mode(true, true, ArgR, ArgU, ABC)
    case CALL => Mode(false, true, ArgU, ArgU, ABC)
    case TAILCALL => Mode(false, true, ArgU, ArgU, ABC)
    case RETURN => Mode(false, false, ArgU, ArgN, ABC)
    case FORLOOP => Mode(false, true, ArgR, ArgN, ASBX)
    case FORPREP => Mode(false, true, ArgR, ArgN, ASBX)
    case TFORLOOP => Mode(true, false, ArgN, ArgU, ABC)
    case SETLIST => Mode(false, false, ArgU, ArgU, ABC)
    case CLOSE => Mode(false, false, ArgN, ArgN, ABC)
    case CLOSURE => Mode(false, true, ArgU, ArgN, ABX)
    case VARARG => Mode(false, true, ArgU, ArgN, ABC)
    case BAD(_) => Mode(false, false, ArgN, ArgN, ABC)
  }

  /** A function prototype.  `k` says which constants are strings; `protos` gives the number of upvalues
      of each nested function. */
  datatype Proto = Proto(
    code: seq<Instr>, k: seq<bool>, protos: seq<nat>, nups: nat, sizeupvalues: nat, sizelineinfo: nat,
    numparams: nat, hasArg: bool, isVararg: bool, needsArg: bool, maxstack: nat)

  // ---------- Words that are not instructions ----------

  /** A SETLIST whose count is the word behind it. */
  predicate HasCount(i: Instr) {
    i.op == SETLIST && i.c == 0
  }

  /** The word at `n` is an instruction, not the count of the SETLIST before it. */
  predicate IsStart(code: seq<Instr>, n: nat)
    requires n <= |code|
  {
    n == 0 || !(IsStart(code, n - 1) && HasCount(code[n - 1]))
  }

  /** `n` is the address of an instruction. */
  predicate Inside(p: Proto, n: int) {
    0 <= n < |p.code| && IsStart(p.code, n)
  }

  // ---------- The interpreter ----------

  /** These skip the next instruction, or do the jump that it holds. */
  predicate IsTest(op: Op) {
    op in {EQ, LT, LE, TEST, TESTSET, TFORLOOP}
  }

  /** `luaV_execute`: control may go from `pc` to `next`. */
  predicate Follows(p: Proto, pc: nat, next: int)
    requires pc < |p.code|
  {
    var i := p.code[pc];
    match i.op
    case LOADBOOL => next == if i.c != 0 then pc + 2 else pc + 1
    case JMP => next == pc + 1 + SBx(i)
    case FORPREP => next == pc + 1 + SBx(i)
    case FORLOOP => next == pc + 1 || next == pc + 1 + SBx(i)
    case RETURN => false
    case SETLIST => next == if i.c == 0 then pc + 2 else pc + 1
    case CLOSURE => next == pc + 1 + if Bx(i) < |p.protos| then p.protos[Bx(i)] else 0
    case _ =>
      if IsTest(i.op)
      then next == pc + 2 || (pc + 1 < |p.code| && next == pc + 2 + SBx(p.code[pc + 1]))
      else next == pc + 1
  }

  /** `RK(x)` is register `r`. */
  predicate IsRKReg(x: nat, r: int) {
    x < BITRK && r == x
  }

  /** The instruction at `pc` reads or writes register `r`; what lies up to the stack top of an open call
      is not counted. */
  predicate Touches(p: Proto, pc: nat, r: int)
    requires pc < |p.code|
  {
    var i := p.code[pc];
    match i.op
    case MOVE => r == i.a || r == i.b
    case LOADNIL => i.a <= r <= i.b || r == i.b
    case GETTABLE => r == i.a || r == i.b || IsRKReg(i.c, r)
    case SETTABLE => r == i.a || IsRKReg(i.b, r) || IsRKReg(i.c, r)
    case SELF => r == i.a || r == i.a + 1 || r == i.b || IsRKReg(i.c, r)
    case ADD => r == i.a || IsRKReg(i.b, r) || IsRKReg(i.c, r)
    case SUB => r == i.a || IsRKReg(i.b, r) || IsRKReg(i.c, r)
    case MUL => r == i.a || IsRKReg(i.b, r) || IsRKReg(i.c, r)
    case DIV => r == i.a || IsRKReg(i.b, r) || IsRKReg(i.c, r)
    case MOD => r == i.a || IsRKReg(i.b, r) || IsRKReg(i.c, r)
    case POW => r == i.a || IsRKReg(i.b, r) || IsRKReg(i.c, r)
    case UNM => r == i.a || r == i.b
    case NOT => r == i.a || r == i.b
    case LEN => r == i.a || r == i.b
    case CONCAT => r == i.a || i.b <= r <= i.c
    case JMP => false
    case EQ => IsRKReg(i.b, r) || IsRKReg(i.c, r)
    case LT => IsRKReg(i.b, r) || IsRKReg(i.c, r)
    case LE => IsRKReg(i.b, r) || IsRKReg(i.c, r)
    case TESTSET => r == i.a || r == i.b
    case CALL => r == i.a || (i.a <= r < i.a + i.b) || (i.a <= r < i.a + i.c - 1)
    case TAILCALL => r == i.a || (i.a <= r < i.a + i.b)
    case RETURN => i.a <= r < i.a + i.b - 1
    case FORLOOP => i.a <= r <= i.a + 3
    case FORPREP => i.a <= r <= i.a + 2
    case TFORLOOP => i.a <= r <= i.a + 5 || (i.a + 3 <= r <= i.a + 2 + i.c)
    case SETLIST => i.a <= r <= i.a + i.b
    case CLOSURE => r == i.a || Captures(p, pc, r)
    case VARARG => i.a <= r < i.a + i.b - 1
    case _ => r == i.a
  }

  /** CLOSURE: one of the words behind it names register `r` as an upvalue of the new closure. */
  predicate Captures(p: Proto, pc: nat, r: int)
    requires pc < |p.code|
  {
    Bx(p.code[pc]) < |p.protos| &&
    exists j {:trigger p.code[j]} :: pc < j <= pc + p.protos[Bx(p.code[pc])] && j < |p.code| &&
        p.code[j].op == MOVE && r == p.code[j].b
  }

  /** The instruction uses constant number `n`. */
  predicate Loads(i: Instr, n: nat) {
    match i.op
    case LOADK => n == Bx(i)
    case GETGLOBAL => n == Bx(i)
    case SETGLOBAL => n == Bx(i)
    case GETTABLE => i.c == n + BITRK
    case SELF => i.c == n + BITRK
    case SETTABLE => i.b == n + BITRK || i.c == n + BITRK
    case ADD => i.b == n + BITRK || i.c == n + BITRK
    case SUB => i.b == n + BITRK || i.c == n + BITRK
    case MUL => i.b == n + BITRK || i.c == n + BITRK
    case DIV => i.b == n + BITRK || i.c == n + BITRK
    case MOD => i.b == n + BITRK || i.c == n + BITRK
    case POW => i.b == n + BITRK || i.c == n + BITRK
    case EQ => i.b == n + BITRK || i.c == n + BITRK
    case LT => i.b == n + BITRK || i.c == n + BITRK
    case LE => i.b == n + BITRK || i.c == n + BITRK
    case _ => false
  }

  /** The instruction at `pc` uses upvalue number `n`. */
  predicate UsesUpvalue(p: Proto, pc: nat, n: nat)
    requires pc < |p.code|
  {
    var i := p.code[pc];
    || (i.op in {GETUPVAL, SETUPVAL} && n == i.b)
    || (i.op == CLOSURE && Bx(i) < |p.protos| &&
        exists j {:trigger p.code[j]} :: pc < j <= pc + p.protos[Bx(i)] && j < |p.code| && p.code[j].op == GETUPVAL &&
            n == p.code[j].b)
  }

  /** The instruction at `pc` changes register `r`, whatever the values are. */
  predicate Writes(i: Instr, r: int) {
    match i.op
    case LOADNIL => i.a <= r <= i.b || r == i.b
    case SELF => r == i.a || r == i.a + 1
    case CONCAT => r == i.a || i.b <= r <= i.c
    case CALL => i.a <= r && (i.c == 0 || r < i.a + i.c - 1)
    case FORLOOP => r == i.a || r == i.a + 3
    case FORPREP => i.a <= r <= i.a + 2
    case TFORLOOP => r == i.a + 2 || i.a + 3 <= r <= i.a + 2 + i.c
    case VARARG => i.a <= r && (i.b == 0 || r < i.a + i.b - 1)
    case TEST => false
    case SETGLOBAL => false
    case SETUPVAL => false
    case SETTABLE => false
    case JMP => false
    case EQ => false
    case LT => false
    case LE => false
    case RETURN => false
    case SETLIST => false
    case CLOSE => false
    case BAD(_) => false
    case _ => r == i.a
  }

  // ---------- A variable number of values ----------

  /** Up to where the instruction takes values, if the top of the stack is `top`: one that says how many it takes
      does not look at the top. */
  function TakenUpTo(i: Instr, top: nat): nat {
    match i.op
    case CALL => if i.b != 0 then i.a + i.b else top
    case TAILCALL => if i.b != 0 then i.a + i.b else top
    case RETURN => if i.b != 0 then i.a + i.b - 1 else top
    case SETLIST => if i.b != 0 then i.a + i.b + 1 else top
    case _ => i.a
  }

  /** Where the top of the stack is behind an instruction that has yielded `n` values.  A tail call of a C function
      leaves all results, whatever its C is. */
  function TopAfter(p: Proto, i: Instr, n: nat): nat {
    match i.op
    case CALL => if i.c != 0 then p.maxstack else i.a + n
    case TAILCALL => i.a + n
    case VARARG => if i.b != 0 then p.maxstack else i.a + n
    case _ => p.maxstack
  }

  /** The instruction takes what the top of the stack says. */
  ghost predicate TakesOpen(i: Instr) {
    exists m: nat, n: nat :: TakenUpTo(i, m) != TakenUpTo(i, n)
  }

  /** How many values there are depends on the run. */
  ghost predicate LeavesOpen(p: Proto, i: Instr) {
    exists m: nat, n: nat :: TopAfter(p, i, m) != TopAfter(p, i, n)
  }
}
