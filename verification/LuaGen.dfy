/**
 Each step of the code generator keeps what descriptors mean.
 */
module LuaGen {
  import opened LuaMachine
  import opened LuaRuns
  import opened LuaMeaning

  /** The lists of a descriptor and the jumps to the current position, as sets of addresses. */
  ghost predicate Shape(c: Code, ts: set<nat>, fs: set<nat>, js: set<nat>, p: nat, ins: set<nat>, d: ExpDesc) {
    && Pending(c, ts + fs + js) && ts !! fs && (ts + fs) !! js && (forall j :: j in ts + fs ==> j >= p || j in ins)
    && Whole(c) && p <= |c| && (forall j :: j in ins ==> j < p)
    && (d.k.VRelocable? ==> p <= d.info == |c| - 1 && js == {} && Relocatable(c[d.info]) && Whole(Body(c, d)))
    && (d.k.VJmp? ==>
        p < d.info == |c| - 1 && js == {} && c[d.info] == Jmp(NO_JUMP) && c[d.info - 1].Relop? &&
            d.info !in ts + fs && Whole(Body(c, d)))
  }

  /** The code is all there: nothing is left to complete. */
  predicate Settled(d: ExpDesc) {
    !d.k.VRelocable? && !d.k.VJmp?
  }

  predicate IsPlain(i: Instr) {
    !IsTest(i) && !i.Jmp? && !(i.LoadBool? && i.skip)
  }

  lemma ExitKept(c: Code, js: set<nat>, c': Code, js': set<nat>, xs: set<nat>, j: nat, m: Machine, v: Value,
      truth: bool, bad: set<nat>)
    requires Grew(c, js, c', js') && Pending(c, xs) && Pending(c, js) && xs !! js && j in xs
    ensures ExitValue(c', j, m, v, truth, bad) <==> ExitValue(c, j, m, v, truth, bad)
  {
    assert j < |c| && c[j].Jmp?;
    if j > 0 {
      if j - 1 in js {
        assert c[j - 1].Jmp?;
      }
      assert c'[j - 1] == c'[j - 1];
    }
  }

  lemma ValuelessGrew(c: Code, js: set<nat>, c': Code, js': set<nat>, open: set<nat>, ins: set<nat>, bad: set<nat>)
    requires Grew(c, js, c', js') && Pending(c, open + js) && open !! js && Valueless(c, open, ins, bad)
    ensures Valueless(c', open, ins, bad)
  {
    forall j | j in open && j in ins && j !in bad ensures !IsSet(c', j) {
      assert j < |c| && c[j].Jmp?;
      if j > 0 {
        assert c'[j - 1] == c'[j - 1];
        if j - 1 in js { assert c[j - 1].Jmp?; }
      }
    }
  }

  // ---------- Adding an instruction ----------

  lemma RunPlain(w: World, c: Code, open: set<nat>, here: set<nat>, pc: nat, m: Machine)
    requires pc == |c| - 1 && IsPlain(c[pc])
    ensures Run(w, c, open, here, pc, m) == Done(Plain(w, c[pc], m))
  {
    assert Run(w, c, open, here, pc + 1, Plain(w, c[pc], m)) == Done(Plain(w, c[pc], m));
  }

  /** After a plain instruction the value is where `d'` says. */
  lemma Loaded(w: World, c: Code, c': Code, i: Instr, ts: set<nat>, fs: set<nat>, js: set<nat>, p: nat, ins: set<nat>,
               d: ExpDesc, d': ExpDesc, e: Expr, base: nat, bad: set<nat>)
    requires Shape(c, ts, fs, js, p, ins, d) && Settled(d) && Settled(d') &&
        Means(w, c, ts, fs, js, p, ins, d, e, base, bad)
    requires Grew(c, js, c' + [i], {}) && |c'| == |c| && IsPlain(i)
    requires forall m: Machine :: Keeps(m, Plain(w, i, m), base) &&
                  ValueOf(w, c' + [i], d', Plain(w, i, m)) == ValueOf(w, c, d, m)
    ensures Means(w, c' + [i], ts, fs, {}, p, ins, d', e, base, bad)
  {
    var c2 := c' + [i];
    forall m: Machine, s: Entry | Enters(s, ins)
        ensures Ends(w, c2, ts, fs, d', base, m, Eval(w, e, m.regs, m.log), Start(w, c2, ts + fs, {}, p, s, m), bad) {
      var o := Start(w, Body(c, d), ts + fs, js, p, s, m);
      assert Ends(w, c, ts, fs, d, base, m, Eval(w, e, m.regs, m.log), o, bad);
      StartOn(w, c, ts + fs, js, c2, ts + fs, {}, p, s, m);
      match o {
        case Done(m1) =>
          assert c2[|c|] == i;
          RunPlain(w, c2, ts + fs, {}, |c|, m1);
          KeepsTrans(m, m1, Plain(w, i, m1), base);
        case Exit(j, m1) =>
          ExitsKept(c, js, c2, {}, ts, fs, j, m1, Eval(w, e, m.regs, m.log).value, bad);
        case Stuck =>
      }
    }
  }

  lemma KeepsTrans(m: Machine, m1: Machine, m2: Machine, base: nat)
    requires Keeps(m, m1, base) && Keeps(m1, m2, base)
    ensures Keeps(m, m2, base)
  {
    forall r: nat | r < base ensures Get(m2.regs, r) == Get(m.regs, r) {
      assert Get(m1.regs, r) == Get(m.regs, r);
    }
  }

  lemma ExitsKept(c: Code, js: set<nat>, c': Code, js': set<nat>, ts: set<nat>, fs: set<nat>, j: nat, m: Machine,
      v: Value, bad: set<nat>)
    requires Grew(c, js, c', js') && Pending(c, ts + fs + js) && (ts + fs) !! js
    requires (j in ts && ExitValue(c, j, m, v, true, bad)) || (j in fs && ExitValue(c, j, m, v, false, bad))
    ensures (j in ts && ExitValue(c', j, m, v, true, bad)) || (j in fs && ExitValue(c', j, m, v, false, bad))
  {
    assert Pending(c, js) && Pending(c, ts + fs);
    ExitKept(c, js, c', js', ts + fs, j, m, v, true, bad);
    ExitKept(c, js, c', js', ts + fs, j, m, v, false, bad);
  }

  /** A new relocatable instruction: the code before it is complete. */
  lemma Reopened(w: World, c: Code, c': Code, ts: set<nat>, fs: set<nat>, js: set<nat>, p: nat, ins: set<nat>,
                 d: ExpDesc, d': ExpDesc, e: Expr, base: nat, bad: set<nat>)
    requires Shape(c, ts, fs, js, p, ins, d) && Settled(d) && Means(w, c, ts, fs, js, p, ins, d, e, base, bad)
    requires |c'| >= |c| && Grew(c, js, c', {}) && Grew(c, js, Body(c', d'), {}) && |Body(c', d')| == |c|
    requires forall m: Machine :: ValueOf(w, c', d', m) == ValueOf(w, c, d, m)
    ensures Means(w, c', ts, fs, {}, p, ins, d', e, base, bad)
  {
    var b := Body(c', d');
    forall m: Machine, s: Entry | Enters(s, ins)
        ensures Ends(w, c', ts, fs, d', base, m, Eval(w, e, m.regs, m.log), Start(w, b, ts + fs, {}, p, s, m), bad) {
      var o := Start(w, c, ts + fs, js, p, s, m);
      assert Body(c, d) == c;
      assert Ends(w, c, ts, fs, d, base, m, Eval(w, e, m.regs, m.log), o, bad);
      StartOn(w, c, ts + fs, js, b, ts + fs, {}, p, s, m);
      match o {
        case Done(m1) =>
        case Exit(j, m1) =>
          ExitsKept(c, js, c', {}, ts, fs, j, m1, Eval(w, e, m.regs, m.log).value, bad);
        case Stuck =>
      }
    }
  }

  /** A relocatable instruction gets its register. */
  lemma Relocated(w: World, c: Code, ts: set<nat>, fs: set<nat>, p: nat, ins: set<nat>, d: ExpDesc, d': ExpDesc,
      e: Expr, base: nat, reg: nat, bad: set<nat>)
    requires d.k.VRelocable? && Shape(c, ts, fs, {}, p, ins, d) && Means(w, c, ts, fs, {}, p, ins, d, e, base, bad) &&
        reg >= base
    requires d'.k.VNonReloc? && d'.info == reg
    ensures Means(w, c[d.info := WithA(c[d.info], reg)], ts, fs, {}, p, ins, d', e, base, bad)
  {
    hide Eval;
    var c', b, i := c[d.info := WithA(c[d.info], reg)], Body(c, d), WithA(c[d.info], reg);
    assert c' == b + [i];
    forall m: Machine, s: Entry | Enters(s, ins)
        ensures Ends(w, c', ts, fs, d', base, m, Eval(w, e, m.regs, m.log), Start(w, c', ts + fs, {}, p, s, m), bad) {
      var o := Start(w, b, ts + fs, {}, p, s, m);
      assert Ends(w, c, ts, fs, d, base, m, Eval(w, e, m.regs, m.log), o, bad);
      assert Grew(b, {}, c', {});
      StartOn(w, b, ts + fs, {}, c', ts + fs, {}, p, s, m);
      match o {
        case Done(m1) =>
          assert c'[|b|] == i;
          RunPlain(w, c', ts + fs, {}, |b|, m1);
          KeepsTrans(m, m1, Plain(w, i, m1), base);
        case Exit(j, m1) =>
          assert j < |c| && c[j].Jmp? && j < d.info;
          assert IsSet(c', j) == IsSet(c, j) && (j > 0 ==> c'[j - 1] == c[j - 1]);
        case Stuck =>
      }
    }
  }

  // ---------- Conditions ----------

  /** One run of a condition: it leaves when `e` is `truth`, and else falls through. */
  ghost predicate TestEnds(c: Code, ts: set<nat>, fs: set<nat>, truth: bool, base: nat, m: Machine, r: Result,
      o: Outcome, bad: set<nat>) {
    match o
    case Done(m') => Keeps(m, m', base) && m'.log == r.log && Falsy(r.value) == truth
    case Exit(j, m') =>
      && Keeps(m, m', base) && m'.log == r.log
      && ((j in ts && ExitValue(c, j, m', r.value, true, bad)) || (j in fs && ExitValue(c, j, m', r.value, false, bad)))
    case Stuck => false
  }

  ghost predicate Tests(w: World, c: Code, ts: set<nat>, fs: set<nat>, js: set<nat>, p: nat, ins: set<nat>, e: Expr,
      base: nat, truth: bool, bad: set<nat>) {
    && Valueless(c, ts + fs, ins, bad)
    && forall m: Machine, s: Entry {:trigger Start(w, c, ts + fs, js, p, s, m)} :: Enters(s, ins) ==>
         TestEnds(c, ts, fs, truth, base, m, Eval(w, e, m.regs, m.log), Start(w, c, ts + fs, js, p, s, m), bad)
  }

  function When(cond: bool, s: set<nat>): set<nat> {
    if cond then s else {}
  }

  lemma RunTest(w: World, c: Code, open: set<nat>, pc: nat, m: Machine)
    requires pc == |c| - 2 && IsTest(c[pc]) && c[pc + 1].Jmp? && pc + 1 in open
    ensures var t := Tested(w, c[pc], m);
            Run(w, c, open, {}, pc, m) == if t.0 then Exit(pc + 1, t.1) else Done(t.1)
  {
    var t := Tested(w, c[pc], m);
    assert Run(w, c, open, {}, pc + 2, t.1) == Done(t.1);
  }

  /** The open jumps of a branch: those there were, and the one just made. */
  lemma OpenSets(ts: set<nat>, fs: set<nat>, j: nat, truth: bool)
    ensures (ts + When(truth, {j})) + (fs + When(!truth, {j})) == ts + fs + {j}
  {
  }

  /** `jumponcond` on a value in a register: TESTSET and a jump. */
  lemma Branch(w: World, c: Code, c2: Code, ts: set<nat>, fs: set<nat>, js: set<nat>, p: nat, ins: set<nat>,
      d: ExpDesc, e: Expr, base: nat, truth: bool, bad: set<nat>)
    requires Shape(c, ts, fs, js, p, ins, d) && d.k.VNonReloc? && Means(w, c, ts, fs, js, p, ins, d, e, base, bad)
    requires Grew(c, js, c2, {}) && |c2| == |c| + 2 && c2[|c|] == TestSet(NO_REG, d.info, truth) && c2[|c| + 1].Jmp?
    ensures Tests(w, c2, ts + When(truth, {|c| + 1}), fs + When(!truth, {|c| + 1}), {}, p, ins, e, base, truth, bad)
  {
    hide Eval;
    var j := |c| + 1;
    var ts', fs' := ts + When(truth, {j}), fs + When(!truth, {j});
    OpenSets(ts, fs, j, truth);
    assert c2[|c2| - 2] == TestSet(NO_REG, d.info, truth) && IsSet(c2, j);
    forall m: Machine, s: Entry | Enters(s, ins)
        ensures TestEnds(c2, ts', fs', truth, base, m, Eval(w, e, m.regs, m.log),
        Start(w, c2, ts' + fs', {}, p, s, m), bad) {
      var o := Start(w, Body(c, d), ts + fs, js, p, s, m);
      assert Ends(w, c, ts, fs, d, base, m, Eval(w, e, m.regs, m.log), o, bad);
      StartOn(w, c, ts + fs, js, c2, ts + fs + {j}, {}, p, s, m);
      match o {
        case Done(m1) =>
          RunTest(w, c2, ts + fs + {j}, |c|, m1);
        case Exit(i, m1) =>
          ExitsKept(c, js, c2, {}, ts, fs, i, m1, Eval(w, e, m.regs, m.log).value, bad);
        case Stuck =>
      }
    }
  }

  /** `jumponcond` on a `not` just emitted: it is taken back, and its operand tested the other way round. */
  lemma BranchNot(w: World, c: Code, c2: Code, ts: set<nat>, fs: set<nat>, p: nat, ins: set<nat>, d: ExpDesc, e: Expr,
      base: nat, truth: bool, bad: set<nat>)
    requires Shape(c, ts, fs, {}, p, ins, d) && d.k.VRelocable? && c[d.info].NotOp? &&
        Means(w, c, ts, fs, {}, p, ins, d, e, base, bad)
    requires var n := d.info;
             |c2| == n + 2 && c2[..n] == c[..n] && c2[n] == Test(c[n].b, !truth) && c2[n + 1].Jmp?
    ensures Tests(w, c2, ts + When(truth, {d.info + 1}), fs + When(!truth, {d.info + 1}), {}, p, ins, e, base, truth,
        bad)
  {
    hide Eval;
    var b, j := Body(c, d), d.info + 1;
    var ts', fs' := ts + When(truth, {j}), fs + When(!truth, {j});
    OpenSets(ts, fs, j, truth);
    assert c2[|c2| - 2] == Test(c[d.info].b, !truth) && !IsSet(c2, j);
    PrefixGrew(c, c2, d.info);
    forall m: Machine, s: Entry | Enters(s, ins)
        ensures TestEnds(c2, ts', fs', truth, base, m, Eval(w, e, m.regs, m.log),
        Start(w, c2, ts' + fs', {}, p, s, m), bad) {
      var o := Start(w, b, ts + fs, {}, p, s, m);
      assert Ends(w, c, ts, fs, d, base, m, Eval(w, e, m.regs, m.log), o, bad);
      assert forall i :: i < |b| ==> (i in ts + fs + {j} <==> i in ts + fs);
      StartOn(w, b, ts + fs, {}, c2, ts + fs + {j}, {}, p, s, m);
      match o {
        case Done(m1) =>
          RunTest(w, c2, ts + fs + {j}, |b|, m1);
        case Exit(i, m1) =>
          PrefixExit(c, c2, d.info, i, m1, Eval(w, e, m.regs, m.log).value, bad);
        case Stuck =>
      }
    }
  }

  lemma PrefixGrew(c: Code, c2: Code, n: nat)
    requires n <= |c| && n <= |c2| && c2[..n] == c[..n]
    ensures Grew(c[..n], {}, c2, {})
  {
    forall i | 0 <= i < n ensures c2[i] == c[..n][i] {
      assert c2[i] == c2[..n][i];
    }
  }

  lemma PrefixExit(c: Code, c2: Code, n: nat, j: nat, m: Machine, v: Value, bad: set<nat>)
    requires n < |c| && n <= |c2| && c2[..n] == c[..n] && j < |c| && c[j].Jmp? && !c[n].Jmp? &&
        (n + 1 < |c| ==> j != n + 1)
    requires j <= n || j >= |c|
    ensures forall truth :: ExitValue(c2, j, m, v, truth, bad) <==> ExitValue(c, j, m, v, truth, bad)
  {
    if j > 0 {
      assert c2[j - 1] == c2[..n][j - 1] && c[j - 1] == c[..n][j - 1];
    }
  }

  /** A comparison that has just been emitted, perhaps with its condition inverted. */
  lemma BranchJmp(w: World, c: Code, c2: Code, ts: set<nat>, fs: set<nat>, p: nat, ins: set<nat>, d: ExpDesc, e: Expr,
      base: nat, truth: bool, bad: set<nat>)
    requires Shape(c, ts, fs, {}, p, ins, d) && d.k.VJmp? && Means(w, c, ts, fs, {}, p, ins, d, e, base, bad)
    requires var i := c[d.info - 1];
             c2 == c[d.info - 1 := Relop(i.rel, i.want == truth, i.b, i.c)]
    ensures Tests(w, c2, ts + When(truth, {d.info}), fs + When(!truth, {d.info}), {}, p, ins, e, base, truth, bad)
  {
    var j := d.info;
    var ts', fs' := ts + When(truth, {j}), fs + When(!truth, {j});
    OpenSets(ts, fs, j, truth);
    assert !IsSet(c2, j);
    forall m: Machine, s: Entry | Enters(s, ins)
      ensures TestEnds(c2, ts', fs', truth, base, m, Eval(w, e, m.regs, m.log), Start(w, c2, ts' + fs', {}, p, s, m),
          bad)
    {
      assert Ends(w, c, ts, fs, d, base, m, Eval(w, e, m.regs, m.log), Start(w, Body(c, d), ts + fs, {}, p, s, m), bad);
      hide *;
      BranchJmpRun(w, c, c2, ts, fs, p, ins, d, base, truth, m, Eval(w, e, m.regs, m.log), s, bad);
    }
  }

  lemma BranchJmpRun(w: World, c: Code, c2: Code, ts: set<nat>, fs: set<nat>, p: nat, ins: set<nat>, d: ExpDesc,
      base: nat, truth: bool,
                     m: Machine, r: Result, s: Entry, bad: set<nat>)
    requires Shape(c, ts, fs, {}, p, ins, d) && d.k.VJmp? &&
        Ends(w, c, ts, fs, d, base, m, r, Start(w, Body(c, d), ts + fs, {}, p, s, m), bad)
    requires var i := c[d.info - 1]; c2 == c[d.info - 1 := Relop(i.rel, i.want == truth, i.b, i.c)]
    ensures TestEnds(c2, ts + When(truth, {d.info}), fs + When(!truth, {d.info}), truth, base, m, r,
        Start(w, c2, ts + fs + {d.info}, {}, p, s, m), bad)
  {
    var b, j := Body(c, d), d.info;
    var o := Start(w, b, ts + fs, {}, p, s, m);
    assert c2[|c2| - 2].Relop? && !IsSet(c2, j) && c2[|c2| - 1].Jmp?;
    assert c2[..j - 1] == c[..j - 1];
    PrefixGrew(c, c2, j - 1);
    StartOn(w, b, ts + fs, {}, c2, ts + fs + {j}, {}, p, s, m);
    match o {
      case Done(m1) =>
        RunTest(w, c2, ts + fs + {j}, |b|, m1);
      case Exit(i, m1) =>
        assert i < |c| && c[i].Jmp? && i != j && i != j - 1;
        PrefixExit(c, c2, j - 1, i, m1, r.value, bad);
      case Stuck =>
    }
  }

  /** The jumps that bring a value. */
  function Misplaced(c: Code, js: set<nat>): set<nat> {
    set j | j in js && IsSet(c, j)
  }

  /** A constant that never leaves. */
  lemma BranchConst(w: World, c: Code, ts: set<nat>, fs: set<nat>, js: set<nat>, p: nat, ins: set<nat>, d: ExpDesc,
      e: Expr, base: nat, truth: bool, bad: set<nat>)
    requires Settled(d) && Means(w, c, ts, fs, js, p, ins, d, e, base, bad)
    requires forall m: Machine :: ValueOf(w, c, d, m).log == m.log && Falsy(ValueOf(w, c, d, m).value) == truth
    ensures Tests(w, c, ts, fs, js, p, ins, e, base, truth, bad)
  {
    forall m: Machine, s: Entry | Enters(s, ins)
        ensures TestEnds(c, ts, fs, truth, base, m, Eval(w, e, m.regs, m.log), Start(w, c, ts + fs, js, p, s, m), bad) {
      var o := Start(w, Body(c, d), ts + fs, js, p, s, m);
      assert Ends(w, c, ts, fs, d, base, m, Eval(w, e, m.regs, m.log), o, bad);
    }
  }

  /** `luaK_jump` for a constant that always leaves: the jumps to the current position are held back
      and leave too.  If they carry a value it is misplaced, for the constant is the value. */
  lemma BranchAlways(w: World, c: Code, c2: Code, ts: set<nat>, fs: set<nat>, js: set<nat>, p: nat, ins: set<nat>,
      d: ExpDesc, e: Expr, base: nat, truth: bool, bad: set<nat>)
    requires Shape(c, ts, fs, js, p, ins, d) && Settled(d) && Means(w, c, ts, fs, js, p, ins, d, e, base, bad)
    requires forall m: Machine :: ValueOf(w, c, d, m) == Result(Bool(truth), m.log)
    requires |c2| == |c| + 1 && c2[|c|].Jmp? && SameButJumps(c, c2[..|c|], js)
    ensures Tests(w, c2, ts + When(truth, js + {|c|}), fs + When(!truth, js + {|c|}), {}, p, ins, e, base, truth,
              bad + Misplaced(c, js))
  {
    var ts', fs' := ts + When(truth, js + {|c|}), fs + When(!truth, js + {|c|});
    assert ts' + fs' == ts + fs + js + {|c|};
    AlwaysValueless(c, c2, ts + fs, js, p, ins, bad);
    forall m: Machine, s: Entry | Enters(s, ins)
      ensures TestEnds(c2, ts', fs', truth, base, m, Eval(w, e, m.regs, m.log), Start(w, c2, ts' + fs', {}, p, s, m),
          bad + Misplaced(c, js))
    {
      assert Ends(w, c, ts, fs, d, base, m, Eval(w, e, m.regs, m.log), Start(w, Body(c, d), ts + fs, js, p, s, m), bad);
      hide *;
      BranchAlwaysRun(w, c, c2, ts, fs, js, p, ins, d, base, truth, m, Eval(w, e, m.regs, m.log), s, bad);
    }
  }

  lemma AlwaysValueless(c: Code, c2: Code, open: set<nat>, js: set<nat>, p: nat, ins: set<nat>, bad: set<nat>)
    requires |c2| == |c| + 1 && SameButJumps(c, c2[..|c|], js) && Valueless(c, open, ins, bad) && Pending(c, open + js)
    requires forall j :: j in ins ==> j < p <= |c|
    ensures Valueless(c2, open + js + {|c|}, ins, bad + Misplaced(c, js))
  {
    forall j | j in open + js && j in ins && j !in bad + Misplaced(c, js) ensures !IsSet(c2, j) {
      AlwaysExit(c, c2, js, j);
    }
  }

  lemma BranchAlwaysRun(w: World, c: Code, c2: Code, ts: set<nat>, fs: set<nat>, js: set<nat>, p: nat, ins: set<nat>,
      d: ExpDesc, base: nat, truth: bool,
                        m: Machine, r: Result, s: Entry, bad: set<nat>)
    requires Shape(c, ts, fs, js, p, ins, d) && Settled(d) &&
        Ends(w, c, ts, fs, d, base, m, r, Start(w, Body(c, d), ts + fs, js, p, s, m), bad)
    requires forall m: Machine :: ValueOf(w, c, d, m) == Result(Bool(truth), m.log)
    requires |c2| == |c| + 1 && c2[|c|].Jmp? && SameButJumps(c, c2[..|c|], js)
    ensures TestEnds(c2, ts + When(truth, js + {|c|}), fs + When(!truth, js + {|c|}), truth, base, m, r,
        Start(w, c2, ts + fs + js + {|c|}, {}, p, s, m), bad + Misplaced(c, js))
  {
    var open := ts + fs + js;
    var o := Start(w, Body(c, d), ts + fs, js, p, s, m);
    assert open - js == ts + fs && {} + js == js;
    AlwaysContinues(c, c2, open, js);
    LandStart(w, c, c, open, {}, js, p, s, m);
    var o1 := Start(w, c, open, {}, p, s, m);
    assert o == Landed(js, o1);
    ContinueStart(w, c, open, {}, c2, open + {|c|}, {}, p, s, m);
    match o1 {
      case Done(m1) =>
        assert Jump(w, c2, open + {|c|}, {}, |c|, m1) == Exit(|c|, m1);
        assert Run(w, c2, open + {|c|}, {}, |c|, m1) == Exit(|c|, m1);
        assert !IsSet(c2, |c|) by { AlwaysExit(c, c2, js, |c|); }
      case Exit(i, m1) =>
        AlwaysExit(c, c2, js, i);
      case Stuck =>
    }
  }

  lemma AlwaysContinues(c: Code, c2: Code, open: set<nat>, js: set<nat>)
    requires |c2| == |c| + 1 && SameButJumps(c, c2[..|c|], js) && js <= open
    ensures Continues(c, open, {}, c2, open + {|c|}, {})
  {
    forall i | 0 <= i < |c| ensures c2[i] == c[i] || (c[i].Jmp? && c2[i].Jmp? && i in js) {
      assert c2[i] == c2[..|c|][i];
    }
  }

  lemma AlwaysExit(c: Code, c2: Code, js: set<nat>, j: nat)
    requires |c2| == |c| + 1 && SameButJumps(c, c2[..|c|], js) && 0 <= j <= |c|
    ensures IsSet(c2, j) == IsSet(c, j) && (IsSet(c, j) ==> c2[j - 1] == c[j - 1])
  {
    if j > 0 {
      assert c2[j - 1] == c2[..|c|][j - 1];
    }
  }

  // ---------- Moving jumps about ----------

  lemma SameExit(c: Code, c': Code, pending: set<nat>, j: nat)
    requires SameButJumps(c, c', pending) && 0 <= j <= |c|
    ensures IsSet(c', j) == IsSet(c, j) && (IsSet(c, j) ==> c'[j - 1] == c[j - 1])
  {
    if j > 0 {
      assert c'[j - 1] == c'[j - 1];
    }
  }

  /** Where open jumps point does not matter, nor in which list they are threaded. */
  lemma MeansSame(w: World, c: Code, c': Code, ts: set<nat>, fs: set<nat>, js: set<nat>, p: nat, ins: set<nat>,
      d: ExpDesc, e: Expr, base: nat, bad: set<nat>)
    requires Means(w, c, ts, fs, js, p, ins, d, e, base, bad) && Shape(c, ts, fs, js, p, ins, d) &&
        SameButJumps(c, c', ts + fs + js)
    ensures Means(w, c', ts, fs, js, p, ins, d, e, base, bad) && Shape(c', ts, fs, js, p, ins, d)
  {
    SameShape(c, c', ts, fs, js, p, ins, d);
    forall m: Machine, s: Entry | Enters(s, ins)
      ensures Ends(w, c', ts, fs, d, base, m, Eval(w, e, m.regs, m.log), Start(w, Body(c', d), ts + fs, js, p, s, m),
          bad)
    {
      var o := Start(w, Body(c, d), ts + fs, js, p, s, m);
      assert Ends(w, c, ts, fs, d, base, m, Eval(w, e, m.regs, m.log), o, bad);
      hide Eval, Start, Body, Ends, Shape, SameButJumps;
      SameEnds(w, c, c', ts, fs, js, p, ins, d, base, m, Eval(w, e, m.regs, m.log), s, bad);
    }
  }

  lemma SameEnds(w: World, c: Code, c': Code, ts: set<nat>, fs: set<nat>, js: set<nat>, p: nat, ins: set<nat>,
      d: ExpDesc, base: nat, m: Machine, r: Result, s: Entry, bad: set<nat>)
    requires Shape(c, ts, fs, js, p, ins, d) && SameButJumps(c, c', ts + fs + js)
    requires Ends(w, c, ts, fs, d, base, m, r, Start(w, Body(c, d), ts + fs, js, p, s, m), bad)
    ensures Ends(w, c', ts, fs, d, base, m, r, Start(w, Body(c', d), ts + fs, js, p, s, m), bad)
  {
    var o := Start(w, Body(c, d), ts + fs, js, p, s, m);
    SameBody(c, c', ts, fs, js, p, ins, d);
    LandStart(w, Body(c, d), Body(c', d), ts + fs, js, {}, p, s, m);
    assert (ts + fs) - {} == ts + fs && js + {} == js;
    hide Start, Body;
    match o {
      case Done(m1) =>
      case Exit(j, m1) => SameExit(c, c', ts + fs + js, j);
      case Stuck =>
    }
  }

  lemma SameBody(c: Code, c': Code, ts: set<nat>, fs: set<nat>, js: set<nat>, p: nat, ins: set<nat>, d: ExpDesc)
    requires Shape(c, ts, fs, js, p, ins, d) && SameButJumps(c, c', ts + fs + js)
    ensures SameButJumps(Body(c, d), Body(c', d), ts + fs + js) && forall j :: j in ts + fs ==> j <= |c|
    ensures d.k.VRelocable? && d.info < |c| ==> c'[d.info] == c[d.info]
    ensures d.k.VJmp? && 0 < d.info <= |c| ==> c'[d.info - 1] == c[d.info - 1]
  {
    assert forall j :: j in ts + fs ==> j in ts + fs + js;
    var b, b' := Body(c, d), Body(c', d);
    forall i | 0 <= i < |b| ensures b'[i] == b[i] || (b[i].Jmp? && b'[i].Jmp? && i in ts + fs + js) {
      assert c'[i] == c'[i];
    }
  }

  lemma SameShape(c: Code, c': Code, ts: set<nat>, fs: set<nat>, js: set<nat>, p: nat, ins: set<nat>, d: ExpDesc)
    requires Shape(c, ts, fs, js, p, ins, d) && SameButJumps(c, c', ts + fs + js)
    ensures Shape(c', ts, fs, js, p, ins, d)
  {
    forall j | j in ts + fs + js ensures j < |c'| && c'[j].Jmp? && (IsSet(c', j) ==> c'[j - 1].a == NO_REG) {
      assert c[j].Jmp?;
      SameExit(c, c', ts + fs + js, j);
    }
    assert |c| > 0 ==> c'[|c| - 1] == c'[|c| - 1];
    assert d.k.VRelocable? ==> c'[d.info] == c[d.info] && (d.info > 0 ==> c'[d.info - 1] == c'[d.info - 1]);
    assert d.k.VJmp? ==>
        c'[d.info] == c[d.info] && c'[d.info - 1] == c[d.info - 1] && (d.info > 1 ==> c'[d.info - 2] == c'[d.info - 2]);
  }

  /** `luaK_patchtohere` after a test: one list now goes to the current position, where the test also
      falls through. */
  lemma Land(w: World, c: Code, c': Code, ts: set<nat>, fs: set<nat>, js: set<nat>, p: nat, ins: set<nat>, e: Expr,
      base: nat, truth: bool, bad: set<nat>)
    requires Tests(w, c, ts, fs, js, p, ins, e, base, truth, bad) && SameButJumps(c, c', ts + fs + js) && ts !! fs
    requires forall j :: j in ts + fs ==> j < |c|
    ensures if truth then Tests(w, c', ts, {}, js + fs, p, ins, e, base, truth, bad)
        else Tests(w, c', {}, fs, js + ts, p, ins, e, base, truth, bad)
  {
    var stay, go := if truth then ts else fs, if truth then fs else ts;
    assert (ts + fs) - go == stay;
    forall m: Machine, s: Entry | Enters(s, ins)
      ensures TestEnds(c', if truth then ts else {}, if truth then {}
          else fs, truth, base, m, Eval(w, e, m.regs, m.log),
                       Start(w, c', stay, js + go, p, s, m), bad)
    {
      var o := Start(w, c, ts + fs, js, p, s, m);
      assert TestEnds(c, ts, fs, truth, base, m, Eval(w, e, m.regs, m.log), o, bad);
      LandStart(w, c, c', ts + fs, js, go, p, s, m);
      match o {
        case Done(m1) =>
        case Exit(j, m1) => SameExit(c, c', ts + fs + js, j);
        case Stuck =>
      }
    }
    assert ts + {} == ts && {} + fs == fs;
  }

  // ---------- `and`, `or` ----------

  /** The second operand of `and` or `or`, reached when the first falls through or jumps to its end. */
  lemma Sequenced(w: World, c: Code, js: set<nat>, xs: set<nat>, c': Code, ts: set<nat>, fs: set<nat>, js': set<nat>,
      p: nat, ins: set<nat>,
                  d: ExpDesc, a: Expr, b: Expr, base: nat, truth: bool, n: nat, consts: seq<Value>, bad: set<nat>)
    requires Tests(w, c, When(truth, xs), When(!truth, xs), js, p, ins, a, base, truth, bad)
    requires Shape(c', ts, fs, js', |c|, js, d) && Means(w, c', ts, fs, js', |c|, js, d, b, base, bad)
    requires Frame(c, js, c', ts + fs, js', false) && Pending(c, xs + js) && xs !! js && forall j :: j in ins ==>
        j < |c|
    requires Scoped(b, n, consts) && n <= base
    ensures Means(w, c', ts + When(truth, xs), fs + When(!truth, xs), js', p, ins, d, if truth then Or(a, b)
        else And(a, b), base, bad)
  {
    var e := if truth then Or(a, b) else And(a, b);
    var ts', fs' := ts + When(truth, xs), fs + When(!truth, xs);
    assert When(truth, xs) + When(!truth, xs) == xs && ts' + fs' == ts + fs + xs;
    SeqValueless(c, js, xs, c', ts + fs, js', ins, bad);
    forall m: Machine, s: Entry | Enters(s, ins)
      ensures Ends(w, c', ts', fs', d, base, m, Eval(w, e, m.regs, m.log),
          Start(w, Body(c', d), ts' + fs', js', p, s, m), bad)
    {
      SequencedRun(w, c, js, xs, c', ts, fs, js', p, ins, d, a, b, base, truth, n, consts, m, s, bad);
    }
  }

  lemma SequencedRun(w: World, c: Code, js: set<nat>, xs: set<nat>, c': Code, ts: set<nat>, fs: set<nat>,
      js': set<nat>, p: nat, ins: set<nat>,
                     d: ExpDesc, a: Expr, b: Expr, base: nat, truth: bool, n: nat, consts: seq<Value>, m: Machine,
                         s: Entry, bad: set<nat>)
    requires Tests(w, c, When(truth, xs), When(!truth, xs), js, p, ins, a, base, truth, bad) && Enters(s, ins)
    requires Shape(c', ts, fs, js', |c|, js, d) && Means(w, c', ts, fs, js', |c|, js, d, b, base, bad)
    requires Frame(c, js, c', ts + fs, js', false) && Pending(c, xs + js) && xs !! js
    requires Scoped(b, n, consts) && n <= base
    ensures Ends(w, c', ts + When(truth, xs), fs + When(!truth, xs), d, base, m,
                 Eval(w, if truth then Or(a, b) else And(a, b), m.regs, m.log),
                 Start(w, Body(c', d), ts + fs + xs, js', p, s, m), bad)
  {
    hide Means, Shape, Pending, Run, Scoped;
    assert When(truth, xs) + When(!truth, xs) == xs;
    var ra := Eval(w, a, m.regs, m.log);
    var o := Start(w, c, xs, js, p, s, m);
    assert TestEnds(c, When(truth, xs), When(!truth, xs), truth, base, m, ra, o, bad);
    assert Eval(w, if truth then Or(a, b) else And(a, b), m.regs, m.log) ==
           if Falsy(ra.value) == truth then Eval(w, b, m.regs, ra.log) else ra;
    hide Tests, Eval;
    FrameBody(c, js, c', ts, fs, js', d);
    var o1 := SequencedStart(w, c, js, xs, Body(c', d), ts + fs, js', p, s, m);
    hide Frame, Continues, Start, Body;
    match o1 {
      case Done(m1) =>
        SecondRuns(w, c, xs, js, c', ts, fs, js', d, b, base, Top, m, m1, n, consts, bad);
      case Exit(j, m1) =>
        if j in js {
          SecondRuns(w, c, xs, js, c', ts, fs, js', d, b, base, Via(j), m, m1, n, consts, bad);
        } else {
          FrameExit(c, js, c', ts + fs, js', xs, j, m1, ra.value, truth, bad);
        }
      case Stuck =>
    }
  }

  /** The first operand's run, with the jumps to its end told apart from falling through. */
  lemma SequencedStart(w: World, c: Code, js: set<nat>, xs: set<nat>, body: Code, open: set<nat>, js': set<nat>,
      p: nat, s: Entry, m: Machine)
    returns (o1: Outcome)
    requires Frame(c, js, body, open, js', false) && Pending(c, xs + js) && xs !! js &&
        Start(w, c, xs, js, p, s, m) != Stuck
    ensures Start(w, c, xs, js, p, s, m) == Landed(js, o1) && o1 != Stuck
    ensures Start(w, body, open + xs, js', p, s, m) == Next(w, c, js, body, open + xs, js', o1)
  {
    assert (xs + js) - js == xs && {} + js == js;
    LandStart(w, c, c, xs + js, {}, js, p, s, m);
    o1 := Start(w, c, xs + js, {}, p, s, m);
    SeqApart(c, js, xs, body, open, js');
    NextStart(w, c, xs, js, body, open + xs, js', p, s, m);
  }

  lemma FrameBody(c: Code, js: set<nat>, c': Code, ts: set<nat>, fs: set<nat>, js': set<nat>, d: ExpDesc)
    requires Frame(c, js, c', ts + fs, js', false) && Shape(c', ts, fs, js', |c|, js, d)
    ensures Frame(c, js, Body(c', d), ts + fs, js', false)
  {
    var b := Body(c', d);
    assert |c| <= |b|;
    forall i | 0 <= i < |c|
      ensures FrameAt(c, js, b, ts + fs, js', i, false)
    {
      assert b[i] == c'[i];
    }
  }

  lemma SeqApart(c: Code, js: set<nat>, xs: set<nat>, b: Code, open: set<nat>, js': set<nat>)
    requires Frame(c, js, b, open, js', false) && Pending(c, xs + js) && xs !! js
    ensures (open + xs) - xs == open && xs !! js'
    ensures forall j :: j in js ==> j < |c| && c[j].Jmp?
  {
    forall j | j in xs ensures j !in open && j !in js' {
      assert j in xs + js && j < |c|;
    }
    assert forall j :: j in js ==> j in xs + js;
  }

  lemma FrameExit(c: Code, js: set<nat>, c': Code, open: set<nat>, js': set<nat>, xs: set<nat>, j: nat, m: Machine,
      v: Value, truth: bool, bad: set<nat>)
    requires Frame(c, js, c', open, js', false) && Pending(c, xs + js) && xs !! js && j in xs
    requires ExitValue(c, j, m, v, truth, bad)
    ensures ExitValue(c', j, m, v, truth, bad)
  {
    assert j in xs + js && j < |c| && c[j].Jmp?;
    if j > 0 {
      assert c'[j - 1] == c'[j - 1];
      if j - 1 in js { assert j - 1 in xs + js && c[j - 1].Jmp?; }
    }
  }

  lemma SecondRuns(w: World, c: Code, xs: set<nat>, js: set<nat>, c': Code, ts: set<nat>, fs: set<nat>, js': set<nat>,
                   d: ExpDesc, b: Expr, base: nat, s: Entry, m: Machine, m1: Machine, n: nat, consts: seq<Value>,
                       bad: set<nat>)
    requires Shape(c', ts, fs, js', |c|, js, d) && Means(w, c', ts, fs, js', |c|, js, d, b, base, bad) && Enters(s, js)
    requires Frame(c, js, Body(c', d), ts + fs, js', false) && Pending(c, xs + js) && xs !! js && Keeps(m, m1, base)
    requires Scoped(b, n, consts) && n <= base
    ensures Ends(w, c', ts, fs, d, base, m, Eval(w, b, m.regs, m1.log),
        Start(w, Body(c', d), ts + fs + xs, js', |c|, s, m1), bad)
  {
    var o := Start(w, Body(c', d), ts + fs, js', |c|, s, m1);
    assert Ends(w, c', ts, fs, d, base, m1, Eval(w, b, m1.regs, m1.log), o, bad);
    EvalAgree(w, b, m.regs, m1.regs, m1.log, n, consts);
    BelowStart(w, c, xs, js, Body(c', d), ts + fs, js', s, m1);
    match o {
      case Done(m2) => KeepsTrans(m, m1, m2, base);
      case Exit(j, m2) => KeepsTrans(m, m1, m2, base);
      case Stuck =>
    }
  }

  lemma BelowStart(w: World, c: Code, xs: set<nat>, js: set<nat>, b: Code, open: set<nat>, js': set<nat>, s: Entry,
      m: Machine)
    requires Frame(c, js, b, open, js', false) && Pending(c, xs + js) && xs !! js && Enters(s, js)
    ensures Start(w, b, open + xs, js', |c|, s, m) == Start(w, b, open, js', |c|, s, m)
  {
    assert forall j :: j in xs ==> j in xs + js;
    match s
    case Top => OpenBelow(w, b, open, xs, js', |c|, m);
    case Via(j) =>
      assert j in xs + js && b[j].Jmp?;
      JumpBelow(w, b, open, xs, js', j, m);
  }

  lemma SeqValueless(c: Code, js: set<nat>, xs: set<nat>, c': Code, open: set<nat>, js': set<nat>, ins: set<nat>,
        bad: set<nat>)
    requires Frame(c, js, c', open, js', false) && Pending(c, xs + js) && xs !! js
    requires Valueless(c, xs, ins, bad) && Valueless(c', open, js, bad) && forall j :: j in open ==>
        j < |c'| && (j >= |c| || j in js)
    requires forall j :: j in ins ==> j < |c|
    ensures Valueless(c', open + xs, ins, bad)
  {
    forall j | j in xs && j in ins && j !in bad ensures !IsSet(c', j) {
      assert j < |c| && c[j].Jmp?;
      if j > 0 {
        assert c'[j - 1] == c'[j - 1];
        if j - 1 in js { assert c[j - 1].Jmp?; }
      }
    }
    forall j | j in open && j in ins && j !in bad ensures !IsSet(c', j) {
      assert j in js;
    }
  }
}
