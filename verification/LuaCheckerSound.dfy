/**
 What acceptance by the bytecode checker means for the interpreter.
 */
module LuaCheckerSound {
  import opened LuaBytecode
  import opened LuaChecker

  // ---------- Control flow ----------

  /** The interpreter can go through these addresses, one after the other, from the beginning. */
  ghost predicate Path(p: Proto, s: seq<int>) {
    && |s| > 0 && s[0] == 0
    && forall i {:trigger s[i]} :: 0 < i < |s| ==> Goes(p, s[i - 1], s[i])
  }

  predicate Goes(p: Proto, pc: int, next: int) {
    0 <= pc < |p.code| && Follows(p, pc, next)
  }

  /** What the checker asks of a LOADBOOL that skips, whatever the value of its C is. */
  predicate SkipsFine(p: Proto, pc: nat)
    requires pc < |p.code|
  {
    var i := p.code[pc];
    i.op == LOADBOOL && i.c != 0 ==> pc + 2 < |p.code| && !HasCount(p.code[pc + 1])
  }

  /** An instruction of accepted code has passed its checks. */
  lemma Checked(p: Proto, pc: nat)
    requires Accepted(p) && Inside(p, pc)
    ensures Precheck(p) && CheckAt(p, pc)
  {
    hide CheckAt, Precheck;
    assert p.code[pc] == p.code[pc];
  }

  lemma NextInside(p: Proto, pc: nat)
    requires Accepted(p) && Inside(p, pc) && (p.code[pc].op != RETURN || pc + 1 < |p.code|)
    ensures pc + 1 < |p.code| && (if HasCount(p.code[pc]) then Inside(p, pc + 2) else Inside(p, pc + 1))
  {
    hide CheckAt, Precheck, Accepted, IsStart, Advance;
    Checked(p, pc);
    NextStart(p, pc);
    AdvanceFull(p, pc);
  }

  lemma AdvanceFull(p: Proto, pc: nat)
    requires pc < |p.code|
    ensures Advance(p, pc, |p.code|, NO_REG) == if HasCount(p.code[pc]) then pc + 2 else pc + 1
  {
  }

  lemma JumpInside(p: Proto, pc: nat)
    requires Accepted(p) && Inside(p, pc) && ModeOf(p.code[pc].op).format == ASBX
    ensures Inside(p, pc + 1 + SBx(p.code[pc]))
  {
    hide *;
    Checked(p, pc);
    InRange(p, pc);
    JumpChecked(p, pc);
    ParityExact(p.code, pc + 1 + SBx(p.code[pc]));
    IsInside(p, pc + 1 + SBx(p.code[pc]));
  }

  lemma JumpChecked(p: Proto, pc: nat)
    requires pc < |p.code| && CheckAt(p, pc) && ModeOf(p.code[pc].op).format == ASBX
    ensures var dest := pc + 1 + SBx(p.code[pc]); 0 <= dest < |p.code| && RunBefore(p.code, dest) % 2 == 0
  {
  }

  lemma IsInside(p: Proto, n: nat)
    requires n < |p.code| && IsStart(p.code, n)
    ensures Inside(p, n)
  {
  }

  lemma ClosureWords(p: Proto, pc: nat)
    requires pc < |p.code| && CheckAt(p, pc) && p.code[pc].op == CLOSURE
    ensures CheckClosure(p, pc)
  {
  }

  /** None of these words is a RETURN or a SETLIST. */
  lemma WordPlain(p: Proto, pc: nat, j: nat)
    requires Accepted(p) && Inside(p, pc) && p.code[pc].op == CLOSURE && Bx(p.code[pc]) < |p.protos| &&
        j <= p.protos[Bx(p.code[pc])]
    ensures pc + j < |p.code| && p.code[pc + j].op != RETURN && !HasCount(p.code[pc + j])
  {
    hide CheckAt, Accepted, Precheck, IsStart, Bx;
    Checked(p, pc);
    ClosureWords(p, pc);
  }

  /** The words that belong to a CLOSURE are instructions themselves, and so is the one behind them. */
  lemma {:induction false} PseudoInside(p: Proto, pc: nat, j: nat)
    requires Accepted(p) && Inside(p, pc) && p.code[pc].op == CLOSURE && Bx(p.code[pc]) < |p.protos| &&
        j <= p.protos[Bx(p.code[pc])]
    ensures Inside(p, pc + j) && Inside(p, pc + j + 1)
    decreases j
  {
    hide *;
    InRange(p, pc);
    WordPlain(p, pc, j);
    if j > 0 {
      PseudoInside(p, pc, j - 1);
    }
    NextInside(p, pc + j);
  }

  lemma InRange(p: Proto, pc: int)
    ensures Inside(p, pc) ==> 0 <= pc < |p.code|
  {
  }

  lemma TestPair(p: Proto, pc: nat)
    requires pc < |p.code| && CheckAt(p, pc) && ModeOf(p.code[pc].op).isTest
    ensures pc + 2 < |p.code| && p.code[pc + 1].op == JMP && !HasCount(p.code[pc])
  {
  }

  lemma TestJumps(p: Proto, pc: nat)
    requires Accepted(p) && Inside(p, pc) && ModeOf(p.code[pc].op).isTest
    ensures pc + 2 < |p.code| && p.code[pc + 1].op == JMP && Inside(p, pc + 1) && Inside(p, pc + 2) &&
        Inside(p, pc + 2 + SBx(p.code[pc + 1]))
  {
    hide Accepted, Precheck, CheckAt, IsStart, SBx;
    Checked(p, pc);
    TestPair(p, pc);
    NextInside(p, pc);
    NextInside(p, pc + 1);
    JumpInside(p, pc + 1);
  }

  /** From a checked instruction control goes to a checked instruction; only a LOADBOOL whose C is
      neither 0 nor 1 has to be looked at again. */
  lemma StepInside(p: Proto, pc: nat, next: int)
    requires Accepted(p) && Inside(p, pc) && Follows(p, pc, next) && SkipsFine(p, pc)
    ensures Inside(p, next)
  {
    hide Accepted, Precheck, CheckAt, IsStart, SBx, Bx, Inside;
    Checked(p, pc);
    InRange(p, pc);
    var i := p.code[pc];
    if ModeOf(i.op).isTest {
      TestJumps(p, pc);
    } else {
      NextInside(p, pc);
      if i.op == CLOSURE {
        ClosureWords(p, pc);
        PseudoInside(p, pc, p.protos[Bx(i)]);
      } else if i.op == LOADBOOL && i.c != 0 {
        NextInside(p, pc + 1);
      } else if ModeOf(i.op).format == ASBX {
        JumpInside(p, pc);
      }
    }
  }

  lemma PathPrefix(p: Proto, s: seq<int>, n: nat)
    requires Path(p, s) && 0 < n <= |s|
    ensures Path(p, s[..n])
  {
    hide Goes;
    forall i {:trigger s[..n][i]} | 0 < i < n ensures Goes(p, s[..n][i - 1], s[..n][i]) {
      assert s[i] == s[..n][i];
    }
  }

  /** Every path stays inside. */
  ghost predicate Safe(p: Proto) {
    forall s: seq<int> {:trigger Path(p, s)} :: Path(p, s) ==> Inside(p, s[|s| - 1])
  }

  /** No path reaches a LOADBOOL that skips into a count or off the code. */
  ghost predicate SkipsSafe(p: Proto) {
    forall s: seq<int> {:trigger Path(p, s)} :: Path(p, s) && Inside(p, s[|s| - 1]) ==> SkipsFine(p, s[|s| - 1])
  }

  lemma {:induction false} PathInside(p: Proto, s: seq<int>)
    requires Accepted(p) && SkipsSafe(p) && Path(p, s)
    ensures Inside(p, s[|s| - 1])
    decreases |s|
  {
    hide Accepted, SkipsFine, Follows, IsStart;
    if |s| == 1 {
      AtStart(p);
    } else {
      var n := |s| - 1;
      PathPrefix(p, s, n);
      PathInside(p, s[..n]);
      assert s[n] == s[n] && Goes(p, s[n - 1], s[n]);
      StepInside(p, s[n - 1], s[n]);
    }
  }

  lemma AtStart(p: Proto)
    requires Accepted(p)
    ensures Inside(p, 0)
  {
  }

  /** Acceptance makes every path safe exactly when no LOADBOOL that is reached skips badly. */
  lemma ControlFlow(p: Proto)
    requires Accepted(p)
    ensures Safe(p) <==> SkipsSafe(p)
  {
    hide Accepted, SkipsFine, Follows, Path, IsStart;
    if SkipsSafe(p) {
      forall s: seq<int> | Path(p, s) ensures |s| > 0 && Inside(p, s[|s| - 1]) {
        PathStarts(p, s);
        PathInside(p, s);
      }
    }
    if Safe(p) {
      forall s: seq<int> | Path(p, s) ensures |s| > 0 && (Inside(p, s[|s| - 1]) ==> SkipsFine(p, s[|s| - 1])) {
        PathStarts(p, s);
        if Inside(p, s[|s| - 1]) {
          SkipsOn(p, s);
        }
      }
    }
  }

  lemma PathStarts(p: Proto, s: seq<int>)
    requires Path(p, s)
    ensures |s| > 0
  {
  }

  lemma PathMore(p: Proto, s: seq<int>, next: int)
    requires Path(p, s) && Goes(p, s[|s| - 1], next)
    ensures Path(p, s + [next])
  {
    hide Goes;
    var t := s + [next];
    forall n {:trigger t[n]} | 0 < n < |t| ensures Goes(p, t[n - 1], t[n]) {
      assert n < |s| ==> t[n] == s[n];
    }
  }

  lemma SkipsOn(p: Proto, s: seq<int>)
    requires Accepted(p) && Path(p, s) && |s| > 0 && Inside(p, s[|s| - 1]) && Safe(p)
    ensures SkipsFine(p, s[|s| - 1])
  {
    hide Accepted, Path, Safe, IsStart, Goes;
    PathStarts(p, s);
    var pc := s[|s| - 1];
    if p.code[pc].op == LOADBOOL && p.code[pc].c != 0 {
      SkipGoes(p, pc);
      PathMore(p, s, pc + 2);
      SafeAt(p, s + [pc + 2]);
      NextInside(p, pc);
      SkipStarts(p, pc);
    }
  }

  lemma SkipGoes(p: Proto, pc: nat)
    requires pc < |p.code| && p.code[pc].op == LOADBOOL && p.code[pc].c != 0
    ensures Goes(p, pc, pc + 2)
  {
  }

  lemma SafeAt(p: Proto, s: seq<int>)
    requires Safe(p) && Path(p, s)
    ensures |s| > 0 && Inside(p, s[|s| - 1])
  {
    PathStarts(p, s);
    hide Path, Inside;
  }

  lemma SkipStarts(p: Proto, pc: nat)
    requires Inside(p, pc + 2) && Inside(p, pc + 1)
    ensures pc + 2 < |p.code| && !HasCount(p.code[pc + 1])
  {
  }

  lemma SmallSkips(p: Proto, pc: nat)
    requires Accepted(p) && Inside(p, pc) && (p.code[pc].op == LOADBOOL ==> p.code[pc].c <= 1)
    ensures SkipsFine(p, pc)
  {
    Checked(p, pc);
  }

  /** A test on the code itself: no LOADBOOL has a C above 1. */
  lemma BooleansSuffice(p: Proto)
    requires Accepted(p) && forall pc {:trigger p.code[pc]} :: 0 <= pc < |p.code| && p.code[pc].op == LOADBOOL ==>
        p.code[pc].c <= 1
    ensures Safe(p)
  {
    forall s: seq<int> | Path(p, s) ensures Inside(p, s[|s| - 1]) ==> SkipsFine(p, s[|s| - 1]) {
      if Inside(p, s[|s| - 1]) {
        SmallSkips(p, s[|s| - 1]);
      }
    }
    hide Accepted, Path, Safe;
    ControlFlow(p);
  }

  /** LOADBOOL with C = 2 right before the final RETURN: accepted, but control leaves the code. */
  const LEAVING := Proto([Instr(LOADBOOL, 0, 1, 2), Instr(RETURN, 0, 1, 0)], [], [], 0, 0, 0, 0, false, false, false, 1)

  lemma Leaves()
    ensures Accepted(LEAVING) && Path(LEAVING, [0, 2]) && !Inside(LEAVING, 2) && !Safe(LEAVING)
  {
    var p := LEAVING;
    assert CheckAt(p, 0) && CheckAt(p, 1);
    var s: seq<int> := [0, 2];
    assert Follows(p, s[0], s[1]);
    assert Path(p, s) && s[|s| - 1] == 2;
  }

  // ---------- Operands ----------

  /** What an instruction touches is there: the frame has `maxstack` registers.  The call that TFORLOOP
      makes uses two slots more at most, less than the stack has in reserve (EXTRA_STACK is 5). */
  lemma RegistersInside(p: Proto, pc: nat, r: int)
    requires Accepted(p) && Inside(p, pc) && Touches(p, pc, r)
    ensures r < p.maxstack + if p.code[pc].op == TFORLOOP then 2 else 0
  {
    var i := p.code[pc];
    Checked(p, pc);
    if i.op == CLOSURE && r != i.a {
      CapturedInside(p, pc, r);
    }
  }

  lemma CapturedInside(p: Proto, pc: nat, r: int)
    requires Accepted(p) && Inside(p, pc) && p.code[pc].op == CLOSURE && Captures(p, pc, r)
    ensures r < p.maxstack
  {
    hide Accepted, Precheck, CheckAt, IsStart, Bx;
    var j :| pc < j <= pc + p.protos[Bx(p.code[pc])] && j < |p.code| && p.code[j].op == MOVE && r == p.code[j].b;
    PseudoInside(p, pc, j - pc);
    MoveInside(p, j);
  }

  lemma MoveInside(p: Proto, pc: nat)
    requires Accepted(p) && Inside(p, pc)
    ensures p.code[pc].op == MOVE ==> p.code[pc].b < p.maxstack
    ensures p.code[pc].op == GETUPVAL ==> p.code[pc].b < p.nups
  {
    Checked(p, pc);
  }

  lemma ConstantsInside(p: Proto, pc: nat, n: nat)
    requires Accepted(p) && Inside(p, pc) && Loads(p.code[pc], n)
    ensures n < |p.k| && (p.code[pc].op in {GETGLOBAL, SETGLOBAL} ==> p.k[n])
  {
    Checked(p, pc);
  }

  lemma UpvaluesInside(p: Proto, pc: nat, n: nat)
    requires Accepted(p) && Inside(p, pc) && UsesUpvalue(p, pc, n)
    ensures n < p.nups
  {
    hide Accepted, IsStart, Bx;
    var i := p.code[pc];
    if i.op == CLOSURE {
      var j :| pc < j <= pc + p.protos[Bx(i)] && j < |p.code| && p.code[j].op == GETUPVAL && n == p.code[j].b;
      PseudoInside(p, pc, j - pc);
      MoveInside(p, j);
    } else {
      UpvalueInside(p, pc);
    }
  }

  lemma UpvalueInside(p: Proto, pc: nat)
    requires Accepted(p) && Inside(p, pc) && (p.code[pc].op == GETUPVAL || p.code[pc].op == SETUPVAL)
    ensures p.code[pc].b < p.nups
  {
    Checked(p, pc);
  }

  /** What says how many values it takes touches just these; the first is what is called, or the table. */
  lemma TakenTouched(p: Proto, pc: nat, top: nat)
    requires pc < |p.code| && p.code[pc].op in {TAILCALL, RETURN, SETLIST} && p.code[pc].b != 0
    ensures forall r: int :: Touches(p, pc, r) <==> p.code[pc].a <= r < TakenUpTo(p.code[pc], top)
  {
  }

  /** The code of a function that returns the number 1. */
  const RETURNING := Proto([Instr(LOADK, 0, 0, 0), Instr(RETURN, 0, 2, 0), Instr(RETURN, 0, 1, 0)], [false], [], 0, 0,
                           0, 0, false, false, false, 2)

  lemma ReturnsAt(pc: nat)
    requires pc < 3
    ensures CheckAt(RETURNING, pc)
  {
  }

  lemma Returns()
    ensures Accepted(RETURNING)
  {
    hide CheckAt, IsStart;
    var p := RETURNING;
    assert |p.code| == 3;
    forall n: nat | n < |p.code| ensures CheckAt(p, n) {
      ReturnsAt(n);
    }
  }

  /** What may follow an open call is exactly what takes up to the top of the stack. */
  lemma OpenMeans(i: Instr)
    ensures CheckOpenOp(i) <==> TakesOpen(i)
  {
    if CheckOpenOp(i) {
      assert TakenUpTo(i, 0) == 0 && TakenUpTo(i, 1) == 1;
    }
  }

  lemma OpenBehind(p: Proto, pc: nat)
    requires pc < |p.code| && CheckAt(p, pc) && LeavesOpen(p, p.code[pc]) && (p.code[pc].op == TAILCALL ==>
        p.code[pc].c == 0)
    ensures pc + 1 < |p.code| && TakesOpen(p.code[pc + 1]) && p.code[pc].op in {CALL, TAILCALL, VARARG}
  {
    OpenMeans(p.code[pc + 1]);
  }

  /** What leaves a variable number of values is followed by an instruction that takes them; but a TAILCALL is only
      looked at if its C is 0. */
  lemma OpenTaken(p: Proto, pc: nat, next: int)
    requires Accepted(p) && Inside(p, pc) && Follows(p, pc, next)
    requires LeavesOpen(p, p.code[pc]) && (p.code[pc].op == TAILCALL ==> p.code[pc].c == 0)
    ensures Inside(p, next) && TakesOpen(p.code[next])
  {
    hide Accepted, CheckAt, Precheck, IsStart, LeavesOpen, TakesOpen;
    Checked(p, pc);
    OpenBehind(p, pc);
    StepInside(p, pc, next);
  }

  /** A TAILCALL with C = 1, and a RETURN of no values: accepted, but the results of a C function stay behind. */
  const DROPPING := Proto([Instr(TAILCALL, 0, 1, 1), Instr(RETURN, 0, 1, 0)], [], [], 0, 0,
                          0, 0, false, false, false, 1)

  lemma Drops()
    ensures Accepted(DROPPING) && LeavesOpen(DROPPING, DROPPING.code[0]) && Follows(DROPPING, 0, 1) &&
        !TakesOpen(DROPPING.code[1])
  {
    var p := DROPPING;
    assert CheckAt(p, 0) && CheckAt(p, 1);
    assert TopAfter(p, p.code[0], 0) != TopAfter(p, p.code[0], 1);
  }

  // ---------- Tracing a register ----------

  /** The addresses the walk looks at. */
  function Visits(p: Proto, pc: nat, lastpc: nat, reg: nat): seq<nat>
    requires lastpc <= |p.code|
    decreases lastpc - pc
  {
    if pc >= lastpc then [] else [pc] + Visits(p, Advance(p, pc, lastpc, reg), lastpc, reg)
  }

  predicate AltersAt(p: Proto, n: nat, reg: nat) {
    n < |p.code| && Alters(p.code[n], reg)
  }

  ghost predicate LastOf(p: Proto, s: seq<nat>, reg: nat, before: nat, last: nat) {
    || (last == before && forall n :: n in s ==> !AltersAt(p, n, reg))
    || exists i :: 0 <= i < |s| && s[i] == last && AltersAt(p, last, reg) && forall j :: i < j < |s| ==>
        !AltersAt(p, s[j], reg)
  }

  /** The result is the last of these that is noted as changing the register, or the final RETURN. */
  lemma {:induction false} LastChange(p: Proto, pc: nat, lastpc: nat, reg: nat, last: nat)
    requires lastpc <= |p.code| && Walk(p, pc, lastpc, reg, last).Some?
    ensures LastOf(p, Visits(p, pc, lastpc, reg), reg, last, Walk(p, pc, lastpc, reg, last).value)
    decreases lastpc - pc
  {
    hide Alters, CheckAt, Advance, LastOf;
    if pc < lastpc {
      var next := Advance(p, pc, lastpc, reg);
      var now := if Alters(p.code[pc], reg) then pc else last;
      LastChange(p, next, lastpc, reg, now);
      LastMore(p, pc, Visits(p, next, lastpc, reg), reg, last, now, Walk(p, next, lastpc, reg, now).value);
    } else {
      LastNone(p, reg, last);
    }
  }

  lemma LastNone(p: Proto, reg: nat, last: nat)
    ensures LastOf(p, [], reg, last, last)
  {
  }

  lemma LastMore(p: Proto, pc: nat, s: seq<nat>, reg: nat, last: nat, now: nat, result: nat)
    requires pc < |p.code| && now == (if Alters(p.code[pc], reg) then pc else last) && LastOf(p, s, reg, now, result)
    ensures LastOf(p, [pc] + s, reg, last, result)
  {
    var t := [pc] + s;
    assert AltersAt(p, pc, reg) == Alters(p.code[pc], reg);
    hide AltersAt, Alters;
    if result == now && forall n :: n in s ==> !AltersAt(p, n, reg) {
      if AltersAt(p, pc, reg) {
        assert t[0] == result && forall j :: 0 < j < |t| ==> !AltersAt(p, t[j], reg);
      }
    } else {
      var i :| 0 <= i < |s| && s[i] == result && AltersAt(p, result, reg) && forall j :: i < j < |s| ==>
          !AltersAt(p, s[j], reg);
      assert t[i + 1] == result && forall j :: i + 1 < j < |t| ==> !AltersAt(p, t[j], reg);
    }
  }

  /** Every register the instruction changes is noted. */
  ghost predicate Noted(i: Instr) {
    forall r: nat :: Writes(i, r) ==> Alters(i, r)
  }

  /** That is so except for the registers of CONCAT's operands, for what FORLOOP and FORPREP change beside
      their first register, and for all but the first value of `...`. */
  lemma NotedExactly(i: Instr)
    ensures Noted(i) <==>
            match i.op
            case LOADNIL => i.a <= i.b
            case CONCAT => i.b > i.c || i.a == i.b == i.c
            case FORLOOP => false
            case FORPREP => false
            case VARARG => 1 <= i.b <= 2
            case _ => true
  {
    match i.op
    case LOADNIL => assert Writes(i, i.b);
    case CONCAT => assert i.b <= i.c ==> Writes(i, i.b) && Writes(i, i.c);
    case FORLOOP => assert Writes(i, i.a + 3);
    case FORPREP => assert Writes(i, i.a + 1);
    case VARARG => assert Writes(i, i.a + 1) <==> i.b == 0 || i.b > 2;
    case _ =>
  }
}
