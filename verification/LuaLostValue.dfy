/**
 Where the code generator loses a value: `luaK_jump`, called for a constant that decides a condition,
 also takes along the jumps that wait for the current position.  If one of them brings a value, that
 value is taken for the constant's.
 */
module LuaLostValue {
  import opened LuaMachine
  import opened LuaRuns
  import opened LuaMeaning
  import opened LuaGen
  import opened LuaLists
  import opened LuaTraits
  import opened LuaFuncState

  function Literal(truth: bool): Expr {
    if truth then True else False
  }

  /** A run that enters at `s` leaves with the constant's value, none of the jumps excused. */
  ghost predicate Decides(w: World, c2: Code, open: set<nat>, p: nat, truth: bool, base: nat, m: Machine, s: Entry) {
    TestEnds(c2, When(truth, open), When(!truth, open), truth, base, m, Eval(w, Literal(truth), m.regs, m.log),
        Start(w, c2, open, {}, p, s, m), {})
  }

  /** Right behind code `c` at whose end the jumps `js` wait, the jump for a constant decides the
      condition if and only if none of them brings a value. */
  lemma DecidesExactly(w: World, c: Code, js: set<nat>, c2: Code, truth: bool, base: nat)
    requires Pending(c, js) && Whole(c) && |c2| == |c| + 1 && c2[..|c|] == c && c2[|c|].Jmp?
    ensures (forall m: Machine, s: Entry :: Enters(s, js) ==> Decides(w, c2, js + {|c|}, |c|, truth, base, m, s)) <==>
            (forall j :: j in js ==> !IsSet(c, j))
  {
    forall j | 0 <= j < |c| ensures c2[j] == c[j] {
      assert c2[j] == c2[..|c|][j];
    }
    if forall j :: j in js ==> !IsSet(c, j) {
      forall m: Machine, s: Entry | Enters(s, js) ensures Decides(w, c2, js + {|c|}, |c|, truth, base, m, s) {
        assert Jump(w, c2, js + {|c|}, {}, |c|, m) == Exit(|c|, m);
      }
    } else {
      var j :| j in js && IsSet(c, j);
      var m := Machine(map[c[j - 1].b := Other(0)], []);
      assert Start(w, c2, js + {|c|}, {}, |c|, Via(j), m) == Exit(j, m);
      assert !Decides(w, c2, js + {|c|}, |c|, truth, base, m, Via(j));
    }
  }

  /** `((1 or false) and true) or false` */
  const LOSING := Or(And(Or(Num(1), False), True), False)

  const LOSING_CODE: Code := [
    LoadK(0, 0), Test(0, true), Jmp(6), Jmp(1), Jmp(3), LoadBool(0, false, false), Jmp(2), LoadBool(0, false, true),
        LoadBool(0, true, false)]

  /** The flag tells: the number's jump waits where `true` always leaves, and its value is asked for in the end. */
  lemma LosingLoses()
    ensures Loses(LOSING, false, [])
  {
    var one := Or(Num(1), False);
    assert LOSING == Or(And(one, True), False);
    hide *;
    NumberFirst();
    ThenTrue(one, False);
  }

  /** Behind `not` only the truth matters, and the code is right. */
  lemma NotLosing()
    ensures !Loses(Not(LOSING), false, [])
  {
    var one := Or(Num(1), False);
    assert LOSING == Or(And(one, True), False);
    hide *;
    NumberFirst();
    NoneCompared(one);
    NotForgives(LOSING, false, []);
  }

  lemma NoneCompared(one: Expr)
    requires !Trace(one, false, []).1
    ensures !Trace(Or(And(one, True), False), false, []).1
  {
    hide Leave, Joined;
    assert !Trace(And(one, True), false, []).1;
  }

  lemma NumberFirst()
    ensures Trace(Or(Num(1), False), false, []) ==
            (Traits(FalseValue, true, false, true, false, false, false, false, [Other(1)]), false)
  {
    var a := Trace(Num(1), false, []);
    assert a == (Plainly(Number(1), false, []), false);
    assert Added([], Other(1)) == [Other(1)];
    assert Leave(a.0, true) == Exits(true, true, false, false, [Other(1)]);
    assert Trace(False, false, [Other(1)]) == (Plainly(FalseValue, false, [Other(1)]), false);
  }

  /** A number that leaves, then a constant, `true` and another operand. */
  lemma ThenTrue(one: Expr, y: Expr)
    requires Trace(one, false, []) ==
             (Traits(FalseValue, true, false, true, false, false, false, false, [Other(1)]), false)
    ensures Loses(Or(And(one, True), y), false, [])
  {
    TraceLogic(false, one, True, false, []);
    TraceLogic(true, And(one, True), y, false, []);
    assert Trace(True, true, [Other(1)]) == (Plainly(TrueValue, true, [Other(1)]), false);
    hide Trace;
    assert Leave(Trace(one, false, []).0, false) == Exits(true, false, false, true, [Other(1)]);
    assert Leave(Trace(And(one, True), false, []).0, true).bad;
  }

  /** A constant as the first operand of `or` is no fault by itself: a value that waits there is lost exactly if the
      result is asked for. */
  lemma TrueFirst(x: Expr, here: bool, k: seq<Value>)
    ensures Loses(Or(True, x), here, k) <==> here || Loses(x, false, k)
  {
    assert Trace(True, here, k) == (Plainly(TrueValue, here, k), false);
    assert Leave(Trace(True, here, k).0, true) == Exits(true, here, here, false, k);
  }

  lemma LosingScoped()
    ensures Scoped(LOSING, 0, [])
  {
  }

  /** The generator itself, from an empty function. */
  method CompileLosing() returns (fs: FuncState)
    ensures fresh(fs) && fs.mixed
  {
    fs := new FuncState(0, []);
    LosingLoses();
    MixesNone(fs.code);
    LosingScoped();
    hide *;
    var reg := fs.Compile(LOSING);
  }

  /** After its first four operands: two jumps are held by the last one, one waits for what follows. */
  const HALF_CODE: Code := [LoadK(0, 0), TestSet(NO_REG, 0, true), Jmp(NO_JUMP), Jmp(NO_JUMP), Jmp(-3)]

  /** The steps of the code generator for the operands, in their order. */
  method LoseFirst(fs: FuncState)
    requires fs.code == [] && fs.jpc == NO_JUMP && fs.js == [] && fs.k == [] && !fs.error
    modifies fs
    ensures fs.code == HALF_CODE && fs.jpc == 3 && fs.js == [3] && fs.k == [Other(1)] && !fs.error &&
        IsList(fs.code, 4, [4, 2])
  {
    var one := fs.AddK(Other(1));
    NothingFlushed(fs.code);
    var v := fs.CodeI(LoadK(0, one));                 // goiffalse of 1: its value in a register
    FlushNothing([], fs.code[..0]);
    ghost var c1 := fs.code;
    NothingFlushed(c1);
    var t := fs.CondJump(TestSet(NO_REG, 0, true));   // ... leaves when true
    FlushNothing(c1, fs.code[..1]);
    ghost var c2 := fs.code;
    assert c2 == [LoadK(0, 0), TestSet(NO_REG, 0, true), Jmp(NO_JUMP)];
    NothingFlushed(c2);
    var f := fs.NewJump();                            // goiftrue of false: always leaves
    assert fs.code == c2 + [Jmp(NO_JUMP)];
    OneJump(fs.code, 2);
    HeldTogether(fs, c2 + [Jmp(NO_JUMP)]);
  }

  /** The value 1 goes on to `true`, where goiffalse always leaves, and takes it along. */
  method HeldTogether(fs: FuncState, ghost c: Code)
    requires fs.code == c == [LoadK(0, 0), TestSet(NO_REG, 0, true), Jmp(NO_JUMP), Jmp(NO_JUMP)] &&
        fs.jpc == NO_JUMP && fs.js == [] && !fs.error
    requires IsList(c, 2, [2])
    modifies fs`code, fs`jpc, fs`js, fs`error, fs`lasttarget
    ensures fs.code == HALF_CODE && fs.jpc == 3 && fs.js == [3] && !fs.error && IsList(fs.code, 4, [4, 2])
  {
    NothingFlushed(fs.code);
    NoneApart({2});
    assert S([2]) == {2};
    fs.PatchToHere(2, [2]);
    SameCode(c, fs.code);
    assert fs.js == [2] && fs.jpc == 2 by { ListHead(fs.code, fs.jpc, fs.js); }
    var t2 := fs.NewJump();
    ghost var c1 := fs.code;
    assert GetJump(c1, 4) == 2 && c1[..4] == c by { SecondOf(c1, 4, 2); }
    assert c1 == HALF_CODE;
    NothingFlushed(c1);
    OneJump(c1, 3);
    assert S([3]) == {3};
    fs.PatchToHere(3, [3]);
    SameCode(c1, fs.code);
    assert fs.js == [3] && fs.jpc == 3 by { ListHead(fs.code, fs.jpc, fs.js); }
  }

  lemma ListHead(c: Code, l: int, s: seq<nat>)
    requires IsList(c, l, s) && s != []
    ensures l == s[0]
  {
  }

  lemma SecondOf(c: Code, a: nat, b: nat)
    requires IsList(c, a, [a, b])
    ensures a < |c| && c[a].Jmp? && GetJump(c, a) == b
  {
    assert [a, b][1..] == [b];
  }

  const LOADED_CODE: Code := [LoadK(0, 0), TestSet(NO_REG, 0, true), Jmp(NO_JUMP), Jmp(1), Jmp(-3),
      LoadBool(0, false, false)]
  const LABELLED_CODE: Code := LOADED_CODE + [Jmp(NO_JUMP), LoadBool(0, false, true), LoadBool(0, true, false)]
  const PATCHED_CODE: Code := [
    LoadK(0, 0), Test(0, true), Jmp(6), Jmp(1), Jmp(3), LoadBool(0, false, false), Jmp(NO_JUMP),
        LoadBool(0, false, true), LoadBool(0, true, false)]

  lemma ValueLoaded(c: Code)
    requires |c| == 6 && Flushed(HALF_CODE, S([3]), c[..5]) && c[5] == LoadBool(0, false, false)
    ensures c == LOADED_CODE && IsList(c, 4, [4, 2])
  {
    assert S([3]) == {3};
    forall i | 0 <= i < 5 ensures c[i] == LOADED_CODE[i] {
      assert c[i] == c[..5][i] && !IsSet(HALF_CODE, 3);
    }
    assert [4, 2][1..] == [2] && [2][1..] == [];
    assert IsList(c, NO_JUMP, []) && IsList(c, 2, [2]);
  }

  lemma BothPatched(c: Code)
    requires Patched(LABELLED_CODE, c, S([4, 2]), 9, 0, 8)
    ensures c == PATCHED_CODE
  {
    assert S([4, 2]) == {4, 2};
    assert IsSet(LABELLED_CODE, 2) && !IsSet(LABELLED_CODE, 4);
    forall i | 0 <= i < 9 ensures c[i] == PATCHED_CODE[i] {
      assert c[i] == c[i];
    }
  }

  lemma LastPatched(c: Code)
    requires Flushed(PATCHED_CODE, S([6]), c)
    ensures c == LOSING_CODE
  {
    assert S([6]) == {6} && !IsSet(PATCHED_CODE, 6);
    forall i | 0 <= i < 9 ensures c[i] == LOSING_CODE[i] {
      assert c[i] == c[i];
    }
  }

  method LoseLabels(fs: FuncState)
    requires fs.code == LOADED_CODE && fs.jpc == NO_JUMP && fs.js == [] && !fs.error && IsList(fs.code, 4, [4, 2])
    modifies fs`code, fs`jpc, fs`js, fs`error, fs`lasttarget
    ensures fs.code == LABELLED_CODE && fs.jpc == 6 && fs.js == [6] && !fs.error && IsList(fs.code, 4, [4, 2])
  {
    NothingFlushed(fs.code);
    var fj := fs.NewJump();
    ghost var c1 := fs.code;
    assert c1 == LOADED_CODE + [Jmp(NO_JUMP)];
    var pf, pt := fs.CodeLabels(0);
    ghost var c2 := fs.code;
    assert c2 == LABELLED_CODE;
    OneJump(c2, 6);
    NothingFlushed(c2);
    NoneApart(S([6]));
    fs.PatchToHere(fj, [6]);
    SameCode(c2, fs.code);
    ListHead(fs.code, fs.jpc, fs.js);
    KeptBehind(LOADED_CODE, LABELLED_CODE, 4, [4, 2]);
  }

  /** The rest: the constant `false`, and `exp2reg` into register 0. */
  method Lose() returns (fs: FuncState)
    ensures fresh(fs) && fs.code == LOSING_CODE && fs.jpc == NO_JUMP && fs.k == [Other(1)] && !fs.error
  {
    fs := new FuncState(0, []);
    LoseFirst(fs);
    OneJump(fs.code, 3);
    var v := fs.CodeI(LoadBool(0, false, false));
    ValueLoaded(fs.code);
    LoseLabels(fs);
    fs.PatchListAux(4, [4, 2], 9, 0, 8);
    BothPatched(fs.code);
    OneJump(fs.code, 6);
    fs.DischargeJpc();
    LastPatched(fs.code);
  }

  /** The expression is `true`, but its code leaves the number 1. */
  lemma ValueLost(w: World, m: Machine)
    requires w.consts == [Other(1)]
    ensures Eval(w, LOSING, m.regs, m.log).value == Bool(true)
    ensures Run(w, LOSING_CODE, {}, {}, 0, m) == Done(SetReg(m, 0, Other(1)))
  {
    var c, m1 := LOSING_CODE, SetReg(m, 0, Other(1));
    assert Plain(w, c[0], m) == m1;
    assert Run(w, c, {}, {}, 9, m1) == Done(m1);
    assert Jump(w, c, {}, {}, 2, m1) == Done(m1);
    assert Tested(w, c[1], m1) == (true, m1);
    assert Run(w, c, {}, {}, 1, m1) == Done(m1);
    var one := Eval(w, Or(Num(1), False), m.regs, m.log);
    assert Eval(w, Num(1), m.regs, m.log) == Result(Other(1), m.log);
    assert one == Result(Other(1), m.log);
    assert Eval(w, And(Or(Num(1), False), True), m.regs, m.log) == Eval(w, True, m.regs, m.log);
  }
}
