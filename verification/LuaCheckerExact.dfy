/**
 The bytecode checker accepts exactly the admissible code.
 */
module LuaCheckerExact {
  import opened LuaAdmissible
  import opened LuaBytecode
  import opened LuaChecker
  import opened LuaCheckerSound

  /** `luaG_checkcode` */
  method CheckCode(p: Proto) returns (ok: bool)
    ensures ok == Accepted(p)
    ensures ok <==> Admissible(p)
  {
    var r := Symbexec(p, |p.code|, NO_REG);
    FullCheckResult(p);
    AcceptedExactly(p);
    hide *;
    ok := r != ZERO;
  }

  // ---------- Accepted code is admissible ----------

  lemma DemandsMet(p: Proto, pc: nat)
    requires pc < |p.code| && CheckAt(p, pc)
    ensures Demands(p, pc)
  {
    if pc + 1 < |p.code| {
      OpenMeans(p.code[pc + 1]);
    }
    hide TakesOpen, CheckOpenOp;
  }

  lemma RegistersMet(p: Proto, pc: nat)
    requires Accepted(p) && Inside(p, pc)
    ensures RegistersFit(p, pc)
  {
    Checked(p, pc);
    LoopRegisters(p, pc);
    hide Accepted, Precheck, CheckAt, IsStart;
    forall r | Touches(p, pc, r) && (p.code[pc].op == TFORLOOP ==> r <= p.code[pc].a + 2 + p.code[pc].c)
      ensures r < p.maxstack
    {
      RegistersInside(p, pc, r);
    }
  }

  lemma LoopRegisters(p: Proto, pc: nat)
    requires pc < |p.code| && CheckAt(p, pc)
    ensures p.code[pc].op == TFORLOOP ==> p.code[pc].a + 2 + p.code[pc].c < p.maxstack
  {
  }

  lemma FlowMet(p: Proto, pc: nat)
    requires Accepted(p) && Inside(p, pc)
    ensures FlowFits(p, pc)
  {
    hide Accepted, IsStart, Follows;
    forall next: int | Follows(p, pc, next) && (p.code[pc].op == LOADBOOL ==> p.code[pc].c <= 1)
      ensures Inside(p, next)
    {
      SmallSkips(p, pc);
      StepInside(p, pc, next);
    }
  }

  lemma AcceptedFits(p: Proto, pc: nat)
    requires Accepted(p) && Inside(p, pc)
    ensures Fits(p, pc)
  {
    Checked(p, pc);
    hide Accepted, Precheck, CheckAt, IsStart, Loads, UsesUpvalue, Demands, RegistersFit, FlowFits;
    RegistersMet(p, pc);
    FlowMet(p, pc);
    DemandsMet(p, pc);
    forall n: nat | Loads(p.code[pc], n) ensures n < |p.k| && (p.code[pc].op in {GETGLOBAL, SETGLOBAL} ==> p.k[n]) {
      ConstantsInside(p, pc, n);
    }
    forall n: nat | UsesUpvalue(p, pc, n) ensures n < p.nups {
      UpvaluesInside(p, pc, n);
    }
  }

  // ---------- Admissible code is accepted ----------

  lemma HeaderSame(p: Proto)
    ensures Header(p) <==> Precheck(p)
  {
  }

  /** An operand that is a register or a constant. */
  lemma RKFits(p: Proto, pc: nat, x: Arg9)
    requires pc < |p.code| && RegistersFit(p, pc) && ConstantsFit(p, pc) && p.code[pc].op != TFORLOOP
    requires if x >= BITRK then Loads(p.code[pc], x - BITRK) else Touches(p, pc, x)
    ensures CheckArgMode(p, x, ArgK)
  {
    hide Loads, Touches;
    assert x >= BITRK ==> Loads(p.code[pc], x - BITRK);
  }

  lemma RegisterFits(p: Proto, pc: nat, r: int)
    requires pc < |p.code| && RegistersFit(p, pc) && p.code[pc].op != TFORLOOP && Touches(p, pc, r)
    ensures r < p.maxstack
  {
    hide Touches;
  }

  lemma OperandB(p: Proto, pc: nat)
    requires pc < |p.code| && RegistersFit(p, pc) && ConstantsFit(p, pc) && Demands(p, pc)
    requires ModeOf(p.code[pc].op).format == ABC
    ensures CheckArgMode(p, p.code[pc].b, ModeOf(p.code[pc].op).b)
  {
    var i := p.code[pc];
    hide RegistersFit, ConstantsFit, TakenNext, Named;
    match ModeOf(i.op).b
    case ArgR => if i.op != TEST { RegisterFits(p, pc, i.b); }
    case ArgK => RKFits(p, pc, i.b);
    case _ =>
  }

  lemma OperandC(p: Proto, pc: nat)
    requires pc < |p.code| && RegistersFit(p, pc) && ConstantsFit(p, pc) && Demands(p, pc)
    requires ModeOf(p.code[pc].op).format == ABC
    ensures CheckArgMode(p, p.code[pc].c, ModeOf(p.code[pc].op).c)
  {
    var i := p.code[pc];
    hide RegistersFit, ConstantsFit, TakenNext, Named;
    match ModeOf(i.op).c
    case ArgR => RegisterFits(p, pc, i.c);
    case ArgK => RKFits(p, pc, i.c);
    case _ =>
  }

  lemma OperandBx(p: Proto, pc: nat)
    requires pc < |p.code| && ConstantsFit(p, pc)
    ensures ModeOf(p.code[pc].op).format == ABX && ModeOf(p.code[pc].op).b == ArgK ==> Bx(p.code[pc]) < |p.k|
  {
    assert p.code[pc].op in {LOADK, GETGLOBAL, SETGLOBAL} ==> Loads(p.code[pc], Bx(p.code[pc]));
  }

  lemma OperandA(p: Proto, pc: nat)
    requires pc < |p.code| && Demands(p, pc)
    ensures !p.code[pc].op.BAD? && p.code[pc].a < p.maxstack
  {
  }

  /** The operands of the formats. */
  lemma OperandsFit(p: Proto, pc: nat)
    requires Inside(p, pc) && Fits(p, pc)
    ensures CheckOperands(p, pc)
  {
    hide RegistersFit, ConstantsFit, UpvaluesFit, FlowFits, Demands, CheckArgMode, CheckJump, IsStart, ModeOf;
    OperandA(p, pc);
    match ModeOf(p.code[pc].op).format
    case ABC =>
      OperandB(p, pc);
      OperandC(p, pc);
    case ABX => OperandBx(p, pc);
    case ASBX => JumpFits(p, pc);
  }

  lemma JumpFits(p: Proto, pc: nat)
    requires Inside(p, pc) && FlowFits(p, pc) && ModeOf(p.code[pc].op).format == ASBX
    ensures CheckJump(p, pc + 1 + SBx(p.code[pc]))
  {
    var next := pc + 1 + SBx(p.code[pc]);
    assert Follows(p, pc, next);
    ParityExact(p.code, next);
  }

  lemma TestFits(p: Proto, pc: nat)
    requires Inside(p, pc) && FlowFits(p, pc) && Demands(p, pc)
    ensures CheckTest(p, pc)
  {
    var i := p.code[pc];
    if IsTest(i.op) {
      assert Follows(p, pc, pc + 2);
    }
  }

  lemma CallFits(p: Proto, pc: nat)
    requires pc < |p.code| && p.code[pc].op in {CALL, TAILCALL} && RegistersFit(p, pc) && Demands(p, pc)
    ensures CheckCall(p, pc)
  {
    var i := p.code[pc];
    if i.c == 0 {
      OpenMeans(p.code[pc + 1]);
    }
    hide TakesOpen;
    assert i.b != 0 ==> Touches(p, pc, i.a + i.b - 1);
    assert i.op == CALL && i.c > 1 ==> Touches(p, pc, i.a + i.c - 2);
  }

  lemma ClosureFits(p: Proto, pc: nat)
    requires pc < |p.code| && p.code[pc].op == CLOSURE && FlowFits(p, pc) && Demands(p, pc)
    ensures CheckClosure(p, pc)
  {
    assert Follows(p, pc, pc + 1 + p.protos[Bx(p.code[pc])]);
  }

  lemma VarargFits(p: Proto, pc: nat)
    requires pc < |p.code| && p.code[pc].op == VARARG && RegistersFit(p, pc) && Demands(p, pc) &&
        CheckOperands(p, pc)
    ensures CheckOp(p, pc)
  {
    var i := p.code[pc];
    if i.b == 0 {
      OpenMeans(p.code[pc + 1]);
    }
    hide TakesOpen;
    assert i.b > 1 ==> Touches(p, pc, i.a + i.b - 2);
  }

  /** LOADBOOL and SETLIST, which go two words on. */
  lemma SkipFits(p: Proto, pc: nat)
    requires Inside(p, pc) && p.code[pc].op in {LOADBOOL, SETLIST} && RegistersFit(p, pc) && FlowFits(p, pc) &&
        CheckOperands(p, pc)
    ensures CheckOp(p, pc)
  {
    var i := p.code[pc];
    assert i.op == LOADBOOL ==> IsStart(p.code, pc + 1);
    assert i.op == SETLIST && i.b > 0 ==> Touches(p, pc, i.a + i.b);
    assert i.op == LOADBOOL && i.c == 1 ==> Follows(p, pc, pc + 2);
    assert i.op == SETLIST && i.c == 0 ==> Follows(p, pc, pc + 2);
  }

  /** What only needs its registers. */
  lemma PlainFits(p: Proto, pc: nat)
    requires pc < |p.code| && p.code[pc].op in {SELF, TFORLOOP, FORLOOP, RETURN} && RegistersFit(p, pc) &&
        CheckOperands(p, pc) && Demands(p, pc)
    ensures CheckOp(p, pc)
  {
    var i := p.code[pc];
    hide TakenNext, Named, Idle, CheckOperands;
    assert i.op == SELF ==> Touches(p, pc, i.a + 1);
    assert i.op == TFORLOOP ==> Touches(p, pc, i.a + 2 + i.c);
    assert i.op == FORLOOP ==> Touches(p, pc, i.a + 3);
    assert i.op == RETURN && i.b > 1 ==> Touches(p, pc, i.a + i.b - 2);
  }

  lemma NamesFit(p: Proto, pc: nat)
    requires pc < |p.code| && p.code[pc].op in {GETUPVAL, SETUPVAL, GETGLOBAL, SETGLOBAL} && ConstantsFit(p, pc) &&
        UpvaluesFit(p, pc) && CheckOperands(p, pc)
    ensures CheckOp(p, pc)
  {
    var i := p.code[pc];
    hide CheckOperands;
    OperandBx(p, pc);
    assert i.op in {GETUPVAL, SETUPVAL} ==> UsesUpvalue(p, pc, i.b);
    assert i.op in {GETGLOBAL, SETGLOBAL} ==> Loads(i, Bx(i));
  }

  lemma OpFits(p: Proto, pc: nat)
    requires Inside(p, pc) && Fits(p, pc) && CheckOperands(p, pc)
    ensures CheckOp(p, pc)
  {
    var op := p.code[pc].op;
    hide CheckOperands, IsStart, RegistersFit, ConstantsFit, UpvaluesFit, FlowFits, CheckCall, CheckClosure;
    if op == LOADBOOL || op == SETLIST {
      SkipFits(p, pc);
    } else if op == CALL || op == TAILCALL {
      CallFits(p, pc);
    } else if op == CLOSURE {
      ClosureFits(p, pc);
    } else if op == VARARG {
      VarargFits(p, pc);
    } else if op in {SELF, TFORLOOP, FORLOOP, RETURN} {
      PlainFits(p, pc);
    } else if op in {GETUPVAL, SETUPVAL, GETGLOBAL, SETGLOBAL} {
      NamesFit(p, pc);
    }
  }

  lemma FitsChecked(p: Proto, pc: nat)
    requires Inside(p, pc) && Fits(p, pc)
    ensures CheckAt(p, pc)
  {
    OperandsFit(p, pc);
    TestFits(p, pc);
    hide CheckOperands, CheckTest, CheckOp, RegistersFit, FlowFits, Demands, ConstantsFit, UpvaluesFit;
    OpFits(p, pc);
  }

  /** The checker accepts the prototype exactly if it is admissible. */
  lemma AcceptedExactly(p: Proto)
    ensures Accepted(p) <==> Admissible(p)
  {
    HeaderSame(p);
    hide Header, Precheck, CheckAt, Fits, IsStart;
    if Accepted(p) {
      forall pc | Inside(p, pc) ensures Fits(p, pc) {
        AcceptedFits(p, pc);
      }
    }
    if Admissible(p) {
      forall pc | 0 <= pc < |p.code| && IsStart(p.code, pc) ensures CheckAt(p, pc) {
        assert Inside(p, pc) && p.code[pc] == p.code[pc];
        FitsChecked(p, pc);
      }
    }
  }
}
