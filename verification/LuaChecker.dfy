/**
 The bytecode checker: one linear walk over the code (`symbexec`), whose acceptance must mean that no
 path of control leaves the instructions that were checked.
 */
module LuaChecker {
  import opened LuaBytecode

  // ---------- What is checked ----------

  predicate Precheck(p: Proto) {
    && p.maxstack <= MAXSTACK
    && p.numparams + (if p.hasArg then 1 else 0) <= p.maxstack
    && (!p.needsArg || p.hasArg)
    && p.sizeupvalues <= p.nups
    && (p.sizelineinfo == |p.code| || p.sizelineinfo == 0)
    && |p.code| > 0 && p.code[|p.code| - 1].op == RETURN
  }

  /** `luaG_checkopenop`: the instruction may follow one that leaves a variable number of values. */
  predicate CheckOpenOp(i: Instr) {
    (i.op == CALL || i.op == TAILCALL || i.op == RETURN || i.op == SETLIST) && i.b == 0
  }

  predicate CheckArgMode(p: Proto, r: nat, mode: ArgMode) {
    match mode
    case ArgN => r == 0
    case ArgU => true
    case ArgR => r < p.maxstack
    case ArgK => if r >= BITRK then r - BITRK < |p.k| else r < p.maxstack
  }

  /** How many words right before `n` look like a SETLIST with a count. */
  function RunBefore(code: seq<Instr>, n: nat): (j: nat)
    requires n <= |code|
    ensures j <= n
  {
    if n > 0 && HasCount(code[n - 1]) then 1 + RunBefore(code, n - 1) else 0
  }

  predicate CheckJump(p: Proto, dest: int) {
    0 <= dest < |p.code| && RunBefore(p.code, dest) % 2 == 0
  }

  predicate CheckOperands(p: Proto, pc: nat)
    requires pc < |p.code|
  {
    var i := p.code[pc];
    var m := ModeOf(i.op);
    !i.op.BAD? && i.a < p.maxstack &&
    match m.format
    case ABC => CheckArgMode(p, i.b, m.b) && CheckArgMode(p, i.c, m.c)
    case ABX => m.b == ArgK ==> Bx(i) < |p.k|
    case ASBX => m.b == ArgR ==> CheckJump(p, pc + 1 + SBx(i))
  }

  predicate CheckTest(p: Proto, pc: nat)
    requires pc < |p.code|
  {
    ModeOf(p.code[pc].op).isTest ==> pc + 2 < |p.code| && p.code[pc + 1].op == JMP
  }

  predicate CheckCall(p: Proto, pc: nat)
    requires pc < |p.code|
  {
    var i := p.code[pc];
    && (i.b != 0 ==> i.a + i.b - 1 < p.maxstack)
    && (if i.c == 0 then pc + 1 < |p.code| && CheckOpenOp(p.code[pc + 1]) else i.c != 1 ==> i.a + i.c - 2 < p.maxstack)
  }

  predicate CheckClosure(p: Proto, pc: nat)
    requires pc < |p.code|
  {
    var b := Bx(p.code[pc]);
    && b < |p.protos| && pc + p.protos[b] < |p.code|
    && forall j {:trigger p.code[j]} :: pc < j <= pc + p.protos[b] ==> p.code[j].op == GETUPVAL || p.code[j].op == MOVE
  }

  predicate CheckOp(p: Proto, pc: nat)
    requires pc < |p.code| && CheckOperands(p, pc)
  {
    var i := p.code[pc];
    match i.op
    case LOADBOOL => i.c == 1 ==> pc + 2 < |p.code| && !HasCount(p.code[pc + 1])
    case GETUPVAL => i.b < p.nups
    case SETUPVAL => i.b < p.nups
    case GETGLOBAL => p.k[Bx(i)]
    case SETGLOBAL => p.k[Bx(i)]
    case SELF => i.a + 1 < p.maxstack
    case CONCAT => i.b < i.c
    case TFORLOOP => i.c >= 1 && i.a + 2 + i.c < p.maxstack
    case FORLOOP => i.a + 3 < p.maxstack
    case FORPREP => i.a + 3 < p.maxstack
    case CALL => CheckCall(p, pc)
    case TAILCALL => CheckCall(p, pc)
    case RETURN => i.b > 1 ==> i.a + i.b - 2 < p.maxstack
    case SETLIST => (i.b > 0 ==> i.a + i.b < p.maxstack) && (i.c == 0 ==> pc + 1 < |p.code| - 1)
    case CLOSURE => CheckClosure(p, pc)
    case VARARG =>
      && p.isVararg && !p.needsArg && (i.b == 0 ==> pc + 1 < |p.code| && CheckOpenOp(p.code[pc + 1]))
      && i.a + i.b - 2 < p.maxstack
    case _ => true
  }

  /** Everything that one round of `symbexec` checks. */
  predicate CheckAt(p: Proto, pc: nat)
    requires pc < |p.code|
  {
    CheckOperands(p, pc) && CheckTest(p, pc) && CheckOp(p, pc)
  }

  /** The instruction is noted as one that changes `reg`. */
  predicate Alters(i: Instr, reg: nat) {
    || (ModeOf(i.op).setsA && i.a == reg)
    || (i.op == LOADNIL && i.a <= reg <= i.b)
    || (i.op == SELF && reg == i.a + 1)
    || (i.op == TFORLOOP && reg >= i.a + 2)
    || ((i.op == CALL || i.op == TAILCALL) && reg >= i.a)
  }

  /** Where the walk goes next; when it traces a register, it follows forward jumps and leaves out what
      belongs to a CLOSURE. */
  function Advance(p: Proto, pc: nat, lastpc: nat, reg: nat): (next: nat)
    requires pc < |p.code|
    ensures next > pc
  {
    var i := p.code[pc];
    if HasCount(i) then pc + 2
    else if (i.op == FORLOOP || i.op == FORPREP || i.op == JMP) && reg != NO_REG &&
        pc < pc + 1 + SBx(i) <= lastpc then pc + 1 + SBx(i)
    else if i.op == CLOSURE && reg != NO_REG && Bx(i) < |p.protos| then pc + 1 + p.protos[Bx(i)]
    else pc + 1
  }

  datatype Option<T> = None | Some(value: T)

  /** The walk from `pc`: the last instruction that changes `reg`, unless something is wrong. */
  function Walk(p: Proto, pc: nat, lastpc: nat, reg: nat, last: nat): Option<nat>
    requires lastpc <= |p.code|
    decreases lastpc - pc
  {
    if pc >= lastpc then Some(last)
    else if !CheckAt(p, pc) then None
    else Walk(p, Advance(p, pc, lastpc, reg), lastpc, reg, if Alters(p.code[pc], reg) then pc else last)
  }

  function SymbexecSpec(p: Proto, lastpc: nat, reg: nat): Option<nat>
    requires lastpc <= |p.code|
  {
    if Precheck(p) then Walk(p, 0, lastpc, reg, |p.code| - 1) else None
  }

  // ---------- The checker ----------

  /** The loop that goes back over words which look like a SETLIST with a count. */
  method CountBefore(code: seq<Instr>, dest: nat) returns (j: nat)
    requires dest <= |code|
    ensures j == RunBefore(code, dest)
  {
    j := 0;
    while j < dest
      invariant j <= dest && RunBefore(code, dest) == j + RunBefore(code, dest - j)
    {
      var d := code[dest - 1 - j];
      if !(d.op == SETLIST && d.c == 0) {
        break;
      }
      j := j + 1;
    }
  }

  /** The loop over the words that name the upvalues of a new closure. */
  method CheckPseudo(p: Proto, pc: nat) returns (ok: bool)
    requires pc < |p.code|
    ensures ok == CheckClosure(p, pc)
  {
    var b := Bx(p.code[pc]);
    if b >= |p.protos| {
      return false;
    }
    var nup := p.protos[b];
    if pc + nup >= |p.code| {
      return false;
    }
    var j := 1;
    while j <= nup
      invariant 1 <= j <= nup + 1
      invariant forall i {:trigger p.code[i]} :: pc < i < pc + j ==> p.code[i].op == GETUPVAL || p.code[i].op == MOVE
    {
      var op1 := p.code[pc + j].op;
      if !(op1 == GETUPVAL || op1 == MOVE) {
        return false;
      }
      j := j + 1;
    }
    ok := true;
  }

  /** The checks that depend on the instruction's format. */
  method CheckFormat(p: Proto, pc: nat) returns (ok: bool)
    requires pc < |p.code|
    ensures ok == CheckOperands(p, pc)
  {
    var i := p.code[pc];
    if i.op.BAD? || i.a >= p.maxstack {
      return false;
    }
    var m := ModeOf(i.op);
    match m.format {
      case ABC => ok := CheckArgMode(p, i.b, m.b) && CheckArgMode(p, i.c, m.c);
      case ABX => ok := m.b == ArgK ==> Bx(i) < |p.k|;
      case ASBX =>
        ok := true;
        if m.b == ArgR {
          var dest := pc + 1 + SBx(i);
          if !(0 <= dest < |p.code|) {
            return false;
          }
          if dest > 0 {
            var j := CountBefore(p.code, dest);
            // an even run before the target: the word there is an instruction
            ok := j % 2 == 0;
          }
        }
    }
  }

  /** All checks of one instruction. */
  method CheckRound(p: Proto, pc: nat) returns (ok: bool)
    requires pc < |p.code|
    ensures ok == CheckAt(p, pc)
  {
    var i := p.code[pc];
    ok := CheckFormat(p, pc);
    hide CheckOperands;
    if !ok {
      return;
    }
    if ModeOf(i.op).isTest && !(pc + 2 < |p.code| && p.code[pc + 1].op == JMP) {
      return false;
    }
    if i.op == CLOSURE {
      ok := CheckPseudo(p, pc);
    } else {
      ok := CheckOp(p, pc);
    }
  }

  /** `symbexec` */
  method Symbexec(p: Proto, lastpc: nat, reg: nat) returns (r: Instr)
    requires lastpc <= |p.code|
    ensures match SymbexecSpec(p, lastpc, reg)
            case None => r == ZERO
            case Some(last) => last < |p.code| && r == p.code[last]
  {
    hide Precheck, CheckAt, Alters, Walk, SymbexecSpec;
    SpecStart(p, lastpc, reg);
    if !Precheck(p) {
      return ZERO;
    }
    var last: nat := |p.code| - 1;         // if nothing is noted: the last RETURN, which changes no register
    var pc: nat := 0;
    while pc < lastpc
      invariant last < |p.code| && SymbexecSpec(p, lastpc, reg) == Walk(p, pc, lastpc, reg, last)
      decreases lastpc - pc
    {
      var i := p.code[pc];
      var ok := CheckRound(p, pc);
      WalkRound(p, pc, lastpc, reg, last);
      if !ok {
        return ZERO;
      }
      if Alters(i, reg) {
        last := pc;
      }
      if i.op == SETLIST && i.c == 0 {
        pc := pc + 1;
      } else if i.op == FORLOOP || i.op == FORPREP || i.op == JMP {
        var dest := pc + 1 + SBx(i);
        // a trace of one register follows forward jumps up to `lastpc`
        if reg != NO_REG && pc < dest && dest <= lastpc {
          pc := dest - 1;                  // go on at the target
        }
      } else if i.op == CLOSURE && reg != NO_REG {
        pc := pc + p.protos[Bx(i)];        // the captures of the CLOSURE are no instructions
      }
      pc := pc + 1;
    }
    WalkRound(p, pc, lastpc, reg, last);
    r := p.code[last];
  }

  lemma SpecStart(p: Proto, lastpc: nat, reg: nat)
    requires lastpc <= |p.code|
    ensures if Precheck(p) then |p.code| > 0 && SymbexecSpec(p, lastpc, reg) == Walk(p, 0, lastpc, reg, |p.code| - 1)
        else SymbexecSpec(p, lastpc, reg) == None
  {
    hide Walk;
  }

  lemma WalkRound(p: Proto, pc: nat, lastpc: nat, reg: nat, last: nat)
    requires lastpc <= |p.code|
    ensures pc >= lastpc ==> Walk(p, pc, lastpc, reg, last) == Some(last)
    ensures pc < lastpc && !CheckAt(p, pc) ==> Walk(p, pc, lastpc, reg, last) == None
    ensures pc < lastpc && CheckAt(p, pc) ==>
              && Walk(p, pc, lastpc, reg, last) == Walk(p, Advance(p, pc, lastpc, reg), lastpc, reg,
                  if Alters(p.code[pc], reg) then pc else last)
              && (p.code[pc].op == CLOSURE ==> Bx(p.code[pc]) < |p.protos|)
  {
  }

  /** The prototype passes its first checks, and every word that is an instruction passes its own. */
  predicate Accepted(p: Proto) {
    Precheck(p) && CleanFrom(p, 0)
  }

  predicate CleanFrom(p: Proto, pc: nat) {
    forall n {:trigger p.code[n]} :: pc <= n < |p.code| && IsStart(p.code, n) ==> CheckAt(p, n)
  }

  // ---------- The walk visits exactly the instructions ----------

  lemma {:induction false} FullWalk(p: Proto, pc: nat, last: nat)
    requires Precheck(p) && pc <= |p.code| && IsStart(p.code, pc) && last < |p.code| && p.code[last] != ZERO
    ensures var o := Walk(p, pc, |p.code|, NO_REG, last);
            (o.Some? <==> CleanFrom(p, pc)) && (o.Some? ==> o.value < |p.code| && p.code[o.value] != ZERO)
    decreases |p.code| - pc
  {
    hide CheckAt, Precheck, Alters, IsStart, Advance;
    if pc < |p.code| {
      CleanNow(p, pc);
      if CheckAt(p, pc) {
        NextStart(p, pc);
        CleanNext(p, pc);
        hide CleanFrom;
        FullWalk(p, Advance(p, pc, |p.code|, NO_REG), if Alters(p.code[pc], NO_REG) then pc else last);
      }
    }
  }

  lemma CleanNow(p: Proto, pc: nat)
    requires pc < |p.code| && IsStart(p.code, pc)
    ensures CleanFrom(p, pc) ==> CheckAt(p, pc)
  {
    assert p.code[pc] == p.code[pc];
  }

  lemma CleanNext(p: Proto, pc: nat)
    requires Precheck(p) && pc < |p.code| && IsStart(p.code, pc) && CheckAt(p, pc)
    ensures CleanFrom(p, pc) <==> CleanFrom(p, Advance(p, pc, |p.code|, NO_REG))
  {
    NextStart(p, pc);
    hide CheckAt, Precheck, IsStart, Advance;
    var next := Advance(p, pc, |p.code|, NO_REG);
    forall n | pc <= n < |p.code| && IsStart(p.code, n) && CleanFrom(p, next) ensures CheckAt(p, n) {
      assert n == pc || n >= next;
    }
  }

  /** Behind an instruction, and the count if it has one, is the next instruction. */
  lemma NextStart(p: Proto, pc: nat)
    requires Precheck(p) && pc < |p.code| && IsStart(p.code, pc) && CheckAt(p, pc)
    ensures var next := Advance(p, pc, |p.code|, NO_REG);
            next <= |p.code| && IsStart(p.code, next) && (next == pc + 2 ==> !IsStart(p.code, pc + 1)) && next <= pc + 2
    ensures p.code[pc].op != RETURN ==> Advance(p, pc, |p.code|, NO_REG) < |p.code|
    ensures Alters(p.code[pc], NO_REG) ==> p.code[pc] != ZERO
  {
  }

  lemma FullCheckResult(p: Proto)
    ensures var o := SymbexecSpec(p, |p.code|, NO_REG);
            (o.Some? <==> Accepted(p)) && (o.Some? ==> o.value < |p.code| && p.code[o.value] != ZERO)
  {
    hide CleanFrom, Walk;
    if Precheck(p) {
      FullWalk(p, 0, |p.code| - 1);
    }
  }

  // ---------- The parity argument ----------

  /** Going back over what looks like SETLISTs with counts tells exactly whether a word is an instruction,
      in any code. */
  lemma {:induction false} ParityExact(code: seq<Instr>, n: nat)
    requires n <= |code|
    ensures RunBefore(code, n) % 2 == 0 <==> IsStart(code, n)
  {
    if n > 0 {
      ParityExact(code, n - 1);
    }
  }
}
