/**
 `not`, putting a value into a register, and comparisons.
 */
module LuaValue {
  import opened LuaMachine
  import opened LuaRuns
  import opened LuaMeaning
  import opened LuaGen

  // ---------- `not` ----------

  predicate Negates(r: Result, r': Result) {
    r' == Result(Bool(Falsy(r.value)), r.log)
  }

  /** `codenot`: the value is negated, the lists change places, and no jump carries a value any more. */
  lemma Negated(w: World, c: Code, c': Code, ts: set<nat>, fs: set<nat>, js: set<nat>, js': set<nat>, p: nat,
      ins: set<nat>,
                d: ExpDesc, d': ExpDesc, e: Expr, base: nat, bad: set<nat>)
    requires Shape(c, ts, fs, js, p, ins, d) && Means(w, c, ts, fs, js, p, ins, d, e, base, bad)
    requires Continues(Body(c, d), ts + fs, js, Body(c', d'), ts + fs, js') && |Body(c', d')| == |Body(c, d)|
    requires forall j :: j in ts + fs ==> !IsSet(c', j)
    requires forall m: Machine :: Negates(ValueOf(w, c, d, m), ValueOf(w, c', d', m))
    ensures Means(w, c', fs, ts, js', p, ins, d', Not(e), base, {})
  {
    var b, b' := Body(c, d), Body(c', d');
    assert fs + ts == ts + fs;
    forall m: Machine, s: Entry | Enters(s, ins)
        ensures Ends(w, c', fs, ts, d', base, m, Eval(w, Not(e), m.regs, m.log), Start(w, b', fs + ts, js', p, s, m),
            {}) {
      var o := Start(w, b, ts + fs, js, p, s, m);
      assert Ends(w, c, ts, fs, d, base, m, Eval(w, e, m.regs, m.log), o, bad);
      ContinueStart(w, b, ts + fs, js, b', ts + fs, js', p, s, m);
      match o {
        case Done(m1) => assert Negates(ValueOf(w, c, d, m1), ValueOf(w, c', d', m1));
        case Exit(j, m1) =>
        case Stuck =>
      }
    }
  }

  // ---------- Putting a value into a register ----------

  /** `luaK_jump` over code to come: everything that reached the end is held back and lands behind it. */
  lemma Held(w: World, c: Code, c2: Code, ts: set<nat>, fs: set<nat>, js: set<nat>, p: nat, ins: set<nat>, d: ExpDesc,
      e: Expr, base: nat, bad: set<nat>)
    requires Shape(c, ts, fs, js, p, ins, d) && d.k.VNonReloc? && Means(w, c, ts, fs, js, p, ins, d, e, base, bad)
    requires |c2| > |c| && c2[|c|].Jmp? && SameButJumps(c, c2[..|c|], js)
    ensures Means(w, c2, ts, fs, js + {|c|}, p, ins, d, e, base, bad)
  {
    forall m: Machine, s: Entry | Enters(s, ins)
      ensures Ends(w, c2, ts, fs, d, base, m, Eval(w, e, m.regs, m.log),
          Start(w, Body(c2, d), ts + fs, js + {|c|}, p, s, m), bad)
    {
      assert Ends(w, c, ts, fs, d, base, m, Eval(w, e, m.regs, m.log), Start(w, Body(c, d), ts + fs, js, p, s, m), bad);
      assert Body(c2, d) == c2 && Body(c, d) == c;
      hide *;
      HeldRun(w, c, c2, ts, fs, js, p, ins, d, base, m, Eval(w, e, m.regs, m.log), s, bad);
    }
    forall j | j in ts + fs && j in ins && j !in bad ensures !IsSet(c2, j) {
      HeldExit(c, c2, js, j);
    }
  }

  lemma HeldRun(w: World, c: Code, c2: Code, ts: set<nat>, fs: set<nat>, js: set<nat>, p: nat, ins: set<nat>,
      d: ExpDesc, base: nat, m: Machine, r: Result, s: Entry, bad: set<nat>)
    requires Shape(c, ts, fs, js, p, ins, d) && d.k.VNonReloc? &&
        Ends(w, c, ts, fs, d, base, m, r, Start(w, c, ts + fs, js, p, s, m), bad)
    requires |c2| > |c| && c2[|c|].Jmp? && SameButJumps(c, c2[..|c|], js)
    ensures Ends(w, c2, ts, fs, d, base, m, r, Start(w, c2, ts + fs, js + {|c|}, p, s, m), bad)
  {
    var open := ts + fs + js;
    assert open - js == ts + fs && {} + js == js;
    HeldContinues(c, c2, open, js);
    assert (open + {|c|}) - (js + {|c|}) == ts + fs && {} + (js + {|c|}) == js + {|c|};
    var o := Start(w, c, ts + fs, js, p, s, m);
    LandStart(w, c, c, open, {}, js, p, s, m);
    var o1 := Start(w, c, open, {}, p, s, m);
    assert o == Landed(js, o1);
    ContinueStart(w, c, open, {}, c2, open + {|c|}, {}, p, s, m);
    LandStart(w, c2, c2, open + {|c|}, {}, js + {|c|}, p, s, m);
    match o1 {
      case Done(m1) =>
        assert Jump(w, c2, open + {|c|}, {}, |c|, m1) == Exit(|c|, m1);
        assert Run(w, c2, open + {|c|}, {}, |c|, m1) ==
            Exit(|c|, m1) by { assert |c| > 0 ==> c2[|c| - 1] == c2[..|c|][|c| - 1]; }
      case Exit(i, m1) =>
        HeldExit(c, c2, js, i);
      case Stuck =>
    }
  }

  lemma HeldContinues(c: Code, c2: Code, open: set<nat>, js: set<nat>)
    requires |c2| > |c| && SameButJumps(c, c2[..|c|], js) && js <= open
    ensures Continues(c, open, {}, c2, open + {|c|}, {})
  {
    forall i | 0 <= i < |c| ensures c2[i] == c[i] || (c[i].Jmp? && c2[i].Jmp? && i in js) {
      assert c2[i] == c2[..|c|][i];
    }
  }

  lemma HeldExit(c: Code, c2: Code, js: set<nat>, j: nat)
    requires |c2| > |c| && SameButJumps(c, c2[..|c|], js) && 0 <= j <= |c|
    ensures IsSet(c2, j) == IsSet(c, j) && (IsSet(c, j) ==> c2[j - 1] == c[j - 1])
  {
    if j > 0 {
      assert c2[j - 1] == c2[..|c|][j - 1];
    }
  }

  /** The two instructions that produce `false` and `true`, at the end of the code. */
  predicate Labels(c: Code, reg: nat) {
    |c| >= 2 && c[|c| - 2] == LoadBool(reg, false, true) && c[|c| - 1] == LoadBool(reg, true, false)
  }

  lemma RunLabels(w: World, c: Code, open: set<nat>, here: set<nat>, reg: nat, m: Machine)
    requires Labels(c, reg)
    ensures Run(w, c, open, here, |c| - 2, m) == Done(SetReg(m, reg, Bool(false)))
    ensures Run(w, c, open, here, |c| - 1, m) == Done(SetReg(m, reg, Bool(true)))
  {
    assert Run(w, c, open, here, |c|, SetReg(m, reg, Bool(false))) == Done(SetReg(m, reg, Bool(false)));
    assert Run(w, c, open, here, |c|, SetReg(m, reg, Bool(true))) == Done(SetReg(m, reg, Bool(true)));
  }

  /** A comparison falls through to the labels when it fails, and leaves with its list when it succeeds. */
  lemma JumpLabels(w: World, c: Code, c2: Code, ts: set<nat>, fs: set<nat>, p: nat, ins: set<nat>, d: ExpDesc,
      d': ExpDesc, e: Expr, base: nat, reg: nat, bad: set<nat>)
    requires Shape(c, ts, fs, {}, p, ins, d) && d.k.VJmp? && Means(w, c, ts, fs, {}, p, ins, d, e, base, bad) &&
        reg >= base
    requires |c2| == |c| + 2 && SameButJumps(c, c2[..|c|], ts + {d.info}) && Labels(c2, reg)
    requires d'.k.VNonReloc? && d'.info == reg
    ensures Means(w, c2, ts + {d.info}, fs, {}, p, ins, d', e, base, bad)
  {
    var open := ts + {d.info} + fs;
    JumpValueless(c, c2, ts, fs, p, ins, d, bad);
    forall m: Machine, s: Entry | Enters(s, ins)
      ensures Ends(w, c2, ts + {d.info}, fs, d', base, m, Eval(w, e, m.regs, m.log),
          Start(w, Body(c2, d'), open, {}, p, s, m), bad)
    {
      assert Ends(w, c, ts, fs, d, base, m, Eval(w, e, m.regs, m.log), Start(w, Body(c, d), ts + fs, {}, p, s, m), bad);
      assert Body(c2, d') == c2;
      hide *;
      JumpLabelsRun(w, c, c2, ts, fs, p, ins, d, d', base, reg, m, Eval(w, e, m.regs, m.log), s, bad);
    }
  }

  lemma JumpValueless(c: Code, c2: Code, ts: set<nat>, fs: set<nat>, p: nat, ins: set<nat>, d: ExpDesc, bad: set<nat>)
    requires Shape(c, ts, fs, {}, p, ins, d) && d.k.VJmp? && |c2| == |c| + 2 &&
        SameButJumps(c, c2[..|c|], ts + {d.info}) && Valueless(c, ts + fs, ins, bad)
    ensures Valueless(c2, ts + {d.info} + fs, ins, bad)
  {
    forall j | j in ts + {d.info} + fs && j in ins && j !in bad ensures !IsSet(c2, j) {
      HeldExit(c, c2, ts + {d.info}, j);
    }
  }

  lemma RunTestLabels(w: World, c: Code, open: set<nat>, reg: nat, m: Machine)
    requires |c| >= 4 && IsTest(c[|c| - 4]) && c[|c| - 3].Jmp? && |c| - 3 in open && Labels(c, reg)
    ensures var t := Tested(w, c[|c| - 4], m);
            Run(w, c, open, {}, |c| - 4, m) == if t.0 then Exit(|c| - 3, t.1) else Done(SetReg(t.1, reg, Bool(false)))
  {
    RunLabels(w, c, open, {}, reg, Tested(w, c[|c| - 4], m).1);
  }

  lemma JumpLabelsRun(w: World, c: Code, c2: Code, ts: set<nat>, fs: set<nat>, p: nat, ins: set<nat>, d: ExpDesc,
      d': ExpDesc, base: nat, reg: nat,
                      m: Machine, r: Result, s: Entry, bad: set<nat>)
    requires Shape(c, ts, fs, {}, p, ins, d) && d.k.VJmp? && reg >= base
    requires Ends(w, c, ts, fs, d, base, m, r, Start(w, Body(c, d), ts + fs, {}, p, s, m), bad)
    requires |c2| == |c| + 2 && SameButJumps(c, c2[..|c|], ts + {d.info}) && Labels(c2, reg)
    requires d'.k.VNonReloc? && d'.info == reg
    ensures Ends(w, c2, ts + {d.info}, fs, d', base, m, r, Start(w, c2, ts + {d.info} + fs, {}, p, s, m), bad)
  {
    var b, j := Body(c, d), d.info;
    var open := ts + {j} + fs;
    BodyContinues(c, c2, ts, fs, j);
    assert c2[j - 1] == c[j - 1] && c2[j].Jmp? by { assert c2[j - 1] == c2[..|c|][j - 1] && c2[j] == c2[..|c|][j]; }
    var o := Start(w, b, ts + fs, {}, p, s, m);
    ContinueStart(w, b, ts + fs, {}, c2, open, {}, p, s, m);
    match o {
      case Done(m1) =>
        JumpLabelsFall(w, c, c2, ts, fs, d, d', base, reg, m, m1, r, bad);
      case Exit(i, m1) =>
        assert i < j;
        HeldExit(c, c2, ts + {j}, i);
      case Stuck =>
    }
  }

  /** The comparison itself, and the label behind it. */
  lemma JumpLabelsFall(w: World, c: Code, c2: Code, ts: set<nat>, fs: set<nat>, d: ExpDesc, d': ExpDesc, base: nat,
      reg: nat, m: Machine, m1: Machine, r: Result, bad: set<nat>)
    requires d.k.VJmp? && 0 < d.info == |c| - 1 && c[d.info - 1].Relop? && |c2| == |c| + 2 && Labels(c2, reg)
    requires c2[d.info - 1] == c[d.info - 1] && c2[d.info].Jmp? && d'.k.VNonReloc? && d'.info == reg && reg >= base
    requires Keeps(m, m1, base) && ValueOf(w, c, d, m1) == r
    ensures Ends(w, c2, ts + {d.info}, fs, d', base, m, r, Run(w, c2, ts + {d.info} + fs, {}, d.info - 1, m1), bad)
  {
    var t := Tested(w, c2[d.info - 1], m1);
    RunTestLabels(w, c2, ts + {d.info} + fs, reg, m1);
    KeepsTrans(m, m1, SetReg(t.1, reg, Bool(false)), base);
    assert !IsSet(c2, d.info);
  }

  lemma BodyContinues(c: Code, c2: Code, ts: set<nat>, fs: set<nat>, j: nat)
    requires 0 < j < |c| && |c2| > |c| && SameButJumps(c, c2[..|c|], ts + {j})
    ensures Continues(c[..j - 1], ts + fs, {}, c2, ts + {j} + fs, {})
  {
    forall i | 0 <= i < j - 1 ensures c2[i] == c[..j - 1][i] || (c[i].Jmp? && c2[i].Jmp? && i in ts) {
      assert c2[i] == c2[..|c|][i];
    }
  }

  /** `patchlistaux` of one list: its jumps bring their value along, or fetch a boolean at `load`. */
  lemma PatchMeans(w: World, c: Code, c': Code, ts: set<nat>, fs: set<nat>, js: set<nat>, p: nat, ins: set<nat>,
      d: ExpDesc, e: Expr, base: nat,
                   truth: bool, load: int, bad: set<nat>)
    requires d.k.VNonReloc? && base <= d.info < NO_REG && Means(w, c, ts, fs, js, p, ins, d, e, base, bad)
    requires var xs := if truth then ts else fs;
             Patched(c, c', xs, |c|, d.info, load) && Patchable(c, ts + fs, js, xs, |c|, load) && ts !! fs
    requires (forall j :: j in ts + fs ==> j < |c| && c[j].Jmp?) && (if truth then ts else fs) !! bad
    requires load >= 0 ==> load <= |c| && forall open: set<nat>, m: Machine ::
               Run(w, c', open, js, load, m) == Done(SetReg(m, d.info, Bool(truth)))
    ensures Means(w, c', if truth then {} else ts, if truth then fs else {}, js, p, ins, d, e, base, bad)
  {
    hide Eval;
    var xs, ys := if truth then ts else fs, if truth then fs else ts;
    assert (ts + fs) - xs == ys;
    assert (if truth then {} else ts) + (if truth then fs else {}) == ys;
    forall m: Machine, s: Entry | Enters(s, ins)
      ensures Ends(w, c', if truth then {} else ts, if truth then fs else {}, d, base, m, Eval(w, e, m.regs, m.log),
                   Start(w, c', ys, js, p, s, m), bad)
    {
      var r := Eval(w, e, m.regs, m.log);
      var o := Start(w, Body(c, d), ts + fs, js, p, s, m);
      assert Ends(w, c, ts, fs, d, base, m, r, o, bad);
      PatchStart(w, c, c', ts + fs, js, xs, |c|, d.info, load, p, s, m);
      match o {
        case Done(m1) =>
        case Exit(j, m1) =>
          if j in xs {
            if IsSet(c, j) {
              KeepsTrans(m, m1, Kept(m1, d.info, c[j - 1].b), base);
            } else {
              KeepsTrans(m, m1, SetReg(m1, d.info, Bool(truth)), base);
            }
          } else {
            PatchExit(c, c', xs, d.info, load, j);
          }
        case Stuck =>
      }
    }
  }

  lemma PatchExit(c: Code, c': Code, xs: set<nat>, reg: nat, load: int, j: nat)
    requires Patched(c, c', xs, |c|, reg, load) && j < |c| && j !in xs && forall i :: i in xs ==> i < |c| && c[i].Jmp?
    ensures IsSet(c', j) == IsSet(c, j) && (IsSet(c, j) ==> c'[j - 1] == c[j - 1])
  {
    if j > 0 {
      assert c'[j - 1] == c'[j - 1];
    }
  }

  // ---------- Comparisons ----------

  /** The operand of a comparison: a register or a constant. */
  function Operand(d: ExpDesc): nat {
    if d.k.VK? then d.info + BITRK else d.info
  }

  predicate IsOperand(d: ExpDesc, base: nat) {
    (d.k.VK? && d.info <= MAXINDEXRK) || (d.k.VNonReloc? && d.info < base && d.info < BITRK)
  }

  lemma OperandValue(w: World, c: Code, d: ExpDesc, base: nat, m: Machine)
    requires IsOperand(d, base)
    ensures ValueOf(w, c, d, m) == Result(RK(w, m, Operand(d)), m.log)
  {
  }

  /** Both operands are where the comparison looks for them. */
  ghost predicate PairEnds(w: World, d1: ExpDesc, d2: ExpDesc, base: nat, m: Machine, ra: Result, rb: Result,
      o: Outcome) {
    o.Done? && Keeps(m, o.m, base) && o.m.log == rb.log && RK(w, o.m, Operand(d1)) == ra.value &&
        RK(w, o.m, Operand(d2)) == rb.value
  }

  lemma NoJumps()
    ensures (var none: set<nat> := {}; none + none == none)
  {
  }

  lemma Pair(w: World, c1: Code, js1: set<nat>, d1: ExpDesc, a: Expr, base: nat, p: nat, ins: set<nat>,
             c2: Code, js2: set<nat>, d2: ExpDesc, b: Expr, base2: nat, base3: nat, n: nat, consts: seq<Value>,
                 m: Machine, s: Entry, bad: set<nat>)
    requires Shape(c1, {}, {}, js1, p, ins, d1) && Means(w, c1, {}, {}, js1, p, ins, d1, a, base, bad) &&
        IsOperand(d1, base2)
    requires Means(w, c2, {}, {}, js2, |c1|, js1, d2, b, base2, bad) && IsOperand(d2, base3) && Enters(s, ins)
    requires Frame(c1, js1, c2, {}, js2, false) && base <= base2 && n <= base && Scoped(b, n, consts)
    ensures PairEnds(w, d1, d2, base, m, Eval(w, a, m.regs, m.log), Eval(w, b, m.regs, Eval(w, a, m.regs, m.log).log),
                     Start(w, c2, {}, js2, p, s, m))
  {
    var ra := Eval(w, a, m.regs, m.log);
    hide Eval;
    var s2, m1 := FirstOperand(w, c1, js1, d1, a, base, p, ins, c2, js2, base2, m, s, bad);
    NoJumps();
    var o2 := Start(w, Body(c2, d2), {} + {}, js2, |c1|, s2, m1);
    assert Ends(w, c2, {}, {}, d2, base2, m1, Eval(w, b, m1.regs, m1.log), o2, bad);
    var m2 := o2.m;
    OperandValue(w, c2, d2, base3, m2);
    EvalAgree(w, b, m.regs, m1.regs, m1.log, n, consts);
    assert Keeps(m1, m2, base);
    KeepsTrans(m, m1, m2, base);
    if d1.k.VNonReloc? { assert Get(m2.regs, d1.info) == Get(m1.regs, d1.info); }
  }

  /** When the second operand starts, from its top or through a jump, the first is in place. */
  lemma FirstOperand(w: World, c1: Code, js1: set<nat>, d1: ExpDesc, a: Expr, base: nat, p: nat, ins: set<nat>,
                     c2: Code, js2: set<nat>, base2: nat, m: Machine, s: Entry, bad: set<nat>)
                         returns (s2: Entry, m1: Machine)
    requires Shape(c1, {}, {}, js1, p, ins, d1) && Means(w, c1, {}, {}, js1, p, ins, d1, a, base, bad) &&
        IsOperand(d1, base2)
    requires Frame(c1, js1, c2, {}, js2, false) && Enters(s, ins)
    ensures Enters(s2, js1) && Keeps(m, m1, base) &&
        Start(w, c2, {}, js2, p, s, m) == Start(w, c2, {}, js2, |c1|, s2, m1)
    ensures Eval(w, a, m.regs, m.log) == Result(RK(w, m1, Operand(d1)), m1.log)
  {
    hide Eval;
    NoJumps();
    var o := Start(w, Body(c1, d1), {} + {}, js1, p, s, m);
    assert Ends(w, c1, {}, {}, d1, base, m, Eval(w, a, m.regs, m.log), o, bad);
    assert Pending(c1, js1) by { assert {} + {} + js1 == js1; }
    assert js1 - js1 == {} && {} + js1 == js1;
    LandStart(w, c1, c1, js1, {}, js1, p, s, m);
    var o1 := Start(w, c1, js1, {}, p, s, m);
    assert o == Landed(js1, o1);
    NextStart(w, c1, {}, js1, c2, {}, js2, p, s, m);
    s2 := if o1.Exit? then Via(o1.j) else Top;
    m1 := o.m;
    OperandValue(w, c1, d1, base2, m1);
  }

  /** The instruction for a comparison operator; `>` and `>=` exchange the operands. */
  function RelopFor(op: CompOp, o1: nat, o2: nat): Instr {
    match op
    case EQ => Relop(Eq, true, o1, o2)
    case NE => Relop(Eq, false, o1, o2)
    case LT => Relop(Lt, true, o1, o2)
    case LE => Relop(Le, true, o1, o2)
    case GT => Relop(Lt, true, o2, o1)
    case GE => Relop(Le, true, o2, o1)
  }

  lemma Comparison(w: World, c1: Code, js1: set<nat>, d1: ExpDesc, a: Expr, base: nat, p: nat, ins: set<nat>,
                   c2: Code, js2: set<nat>, d2: ExpDesc, b: Expr, base2: nat, base3: nat, n: nat, consts: seq<Value>,
                   c3: Code, d: ExpDesc, op: CompOp, bad: set<nat>)
    requires Shape(c1, {}, {}, js1, p, ins, d1) && Means(w, c1, {}, {}, js1, p, ins, d1, a, base, bad) &&
        IsOperand(d1, base2)
    requires Means(w, c2, {}, {}, js2, |c1|, js1, d2, b, base2, bad) && IsOperand(d2, base3) && Pending(c2, js2)
    requires Frame(c1, js1, c2, {}, js2, false) && base <= base2 && n <= base && Scoped(b, n, consts)
    requires d.k.VJmp? && |c3| == |c2| + 2 && d.info == |c2| + 1 && c3[|c2|] == RelopFor(op, Operand(d1), Operand(d2))
    requires Grew(c2, js2, c3[..|c2|], {})
    ensures Means(w, c3, {}, {}, {}, p, ins, d, Comp(op, a, b), base, bad)
  {
    NoJumps();
    forall m: Machine, s: Entry | Enters(s, ins)
      ensures Ends(w, c3, {}, {}, d, base, m, Eval(w, Comp(op, a, b), m.regs, m.log),
          Start(w, Body(c3, d), {} + {}, {}, p, s, m), bad)
    {
      hide *;
      ComparisonRun(w, c1, js1, d1, a, base, p, ins, c2, js2, d2, b, base2, base3, n, consts, c3, d, op, m, s, bad);
    }
  }

  lemma ComparisonRun(w: World, c1: Code, js1: set<nat>, d1: ExpDesc, a: Expr, base: nat, p: nat, ins: set<nat>,
      c2: Code, js2: set<nat>, d2: ExpDesc, b: Expr, base2: nat, base3: nat, n: nat, consts: seq<Value>, c3: Code,
      d: ExpDesc, op: CompOp, m: Machine, s: Entry, bad: set<nat>)
    requires Shape(c1, {}, {}, js1, p, ins, d1) && Means(w, c1, {}, {}, js1, p, ins, d1, a, base, bad) &&
        IsOperand(d1, base2)
    requires Means(w, c2, {}, {}, js2, |c1|, js1, d2, b, base2, bad) && IsOperand(d2, base3) && Pending(c2, js2)
    requires Frame(c1, js1, c2, {}, js2, false) && base <= base2 && n <= base && Scoped(b, n, consts)
    requires d.k.VJmp? && |c3| == |c2| + 2 && d.info == |c2| + 1 && c3[|c2|] == RelopFor(op, Operand(d1), Operand(d2))
    requires Grew(c2, js2, c3[..|c2|], {}) && Enters(s, ins)
    ensures Ends(w, c3, {}, {}, d, base, m, Eval(w, Comp(op, a, b), m.regs, m.log),
        Start(w, Body(c3, d), {}, {}, p, s, m), bad)
  {
    hide Means, Shape, Frame, Scoped;
    Pair(w, c1, js1, d1, a, base, p, ins, c2, js2, d2, b, base2, base3, n, consts, m, s, bad);
    StartOn(w, c2, {}, js2, Body(c3, d), {}, {}, p, s, m);
  }
}
