/**
 Which bytecode is admissible, said by what the interpreter does with it; what the checker asks for beyond
 that is named instruction by instruction.
 */
module LuaAdmissible {
  import opened LuaBytecode

  /** What holds of the prototype as a whole. */
  predicate Header(p: Proto) {
    && |p.code| > 0 && p.code[|p.code| - 1].op == RETURN
    && p.maxstack <= 250 && p.numparams <= p.maxstack && (p.hasArg ==> p.numparams < p.maxstack)
    && (p.hasArg || !p.needsArg)
    && p.sizeupvalues <= p.nups && p.sizelineinfo in {0, |p.code|}
  }

  /** Each register it touches is in the frame; TFORLOOP may use two slots more for its call. */
  ghost predicate RegistersFit(p: Proto, pc: nat)
    requires pc < |p.code|
  {
    var i := p.code[pc];
    forall r: int {:trigger Touches(p, pc, r)} :: Touches(p, pc, r) && (i.op == TFORLOOP ==> r <= i.a + 2 + i.c) ==>
      r < p.maxstack
  }

  /** Each constant it uses exists; the name of a global is a string. */
  ghost predicate ConstantsFit(p: Proto, pc: nat)
    requires pc < |p.code|
  {
    forall n: nat {:trigger Loads(p.code[pc], n)} :: Loads(p.code[pc], n) ==>
      n < |p.k| && (p.code[pc].op in {GETGLOBAL, SETGLOBAL} ==> p.k[n])
  }

  ghost predicate UpvaluesFit(p: Proto, pc: nat)
    requires pc < |p.code|
  {
    forall n: nat {:trigger UsesUpvalue(p, pc, n)} :: UsesUpvalue(p, pc, n) ==> n < p.nups
  }

  /** Control goes from it to instructions.  Nothing is asked of a LOADBOOL whose C is neither 0 nor 1. */
  ghost predicate FlowFits(p: Proto, pc: nat)
    requires pc < |p.code|
  {
    forall next: int {:trigger Follows(p, pc, next)} ::
      Follows(p, pc, next) && (p.code[pc].op == LOADBOOL ==> p.code[pc].c <= 1) ==> Inside(p, next)
  }

  /** Operands without a use are 0. */
  predicate Idle(i: Instr) {
    && (i.op in {MOVE, LOADNIL, GETUPVAL, SETUPVAL, UNM, NOT, LEN, RETURN, CLOSE, VARARG} ==> i.c == 0)
    && (i.op in {TFORLOOP, CLOSE} ==> i.b == 0)
  }

  /** The next instruction takes what this one leaves. */
  ghost predicate TakenNext(p: Proto, pc: nat) {
    pc + 1 < |p.code| && TakesOpen(p.code[pc + 1])
  }

  /** The words behind a CLOSURE name what it captures. */
  predicate Named(p: Proto, pc: nat, n: nat) {
    forall j {:trigger p.code[j]} :: pc < j <= pc + n && j < |p.code| ==> p.code[j].op in {MOVE, GETUPVAL}
  }

  /** What is asked for beyond that. */
  ghost predicate Demands(p: Proto, pc: nat)
    requires pc < |p.code|
  {
    var i := p.code[pc];
    && i.a < p.maxstack                                // even if A is no register, or none is used
    && Idle(i)
    && (IsTest(i.op) ==> pc + 1 < |p.code| && p.code[pc + 1].op == JMP)
    && match i.op
       case TEST => i.b < p.maxstack                   // B is not used
       case CONCAT => i.b < i.c                        // at least two operands
       case FORPREP => i.a + 3 < p.maxstack            // the loop variable
       case TFORLOOP => i.c >= 1                       // at least one result
       case CALL => i.c == 0 ==> TakenNext(p, pc)
       case TAILCALL => if i.c == 0 then TakenNext(p, pc) else i.a + i.c - 2 < p.maxstack
       case VARARG => p.isVararg && !p.needsArg && (i.b == 0 ==> TakenNext(p, pc))
       case CLOSURE => Bx(i) < |p.protos| && Named(p, pc, p.protos[Bx(i)])
       case BAD(_) => false
       case _ => true
  }

  ghost predicate Fits(p: Proto, pc: nat)
    requires pc < |p.code|
  {
    RegistersFit(p, pc) && ConstantsFit(p, pc) && UpvaluesFit(p, pc) && FlowFits(p, pc) && Demands(p, pc)
  }

  ghost predicate Admissible(p: Proto) {
    Header(p) && forall pc {:trigger p.code[pc]} :: Inside(p, pc) ==> Fits(p, pc)
  }
}
