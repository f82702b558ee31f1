/**
 What an expression descriptor of `lcode.c` stands for: where the value is if the code falls
 through, and what is known when it leaves through one of the two lists of open jumps.
 */
module LuaMeaning {
  import opened LuaMachine
  import opened LuaRuns

  datatype Kind = VNil | VTrue | VFalse | VK | VKNum | VLocal | VGlobal | VJmp | VRelocable | VNonReloc

  /** `expdesc`; `t` and `f` are the heads of the lists "exit when true" and "exit when false". */
  datatype ExpDesc = ExpDesc(k: Kind, info: nat, nval: int, t: int, f: int)

  /** The code before the instruction, or the comparison and its jump, that is still to be completed. */
  function Body(c: Code, d: ExpDesc): Code {
    if d.k.VRelocable? && d.info <= |c| then c[..d.info]
    else if d.k.VJmp? && 0 < d.info <= |c| then c[..d.info - 1]
    else c
  }

  /** The value a descriptor has in machine `m`, and what finding out does. */
  function ValueOf(w: World, c: Code, d: ExpDesc, m: Machine): Result {
    match d.k
    case VNil => Result(Nil, m.log)
    case VTrue => Result(Bool(true), m.log)
    case VFalse => Result(Bool(false), m.log)
    case VK => Result(Const(w, d.info), m.log)
    case VKNum => Result(Other(d.nval), m.log)
    case VLocal => Result(Reg(m, d.info), m.log)
    case VNonReloc => Result(Reg(m, d.info), m.log)
    case VGlobal => Result(w.glob(m.log, d.info), m.log + [Read(d.info)])
    case VRelocable => if d.info < |c| then Produced(w, c[d.info], m) else Result(Nil, m.log)
    case VJmp =>
      if 0 < d.info <= |c| && c[d.info - 1].Relop? then
        var i := c[d.info - 1];
        Compare(w, i.rel, RK(w, m, i.b), RK(w, m, i.c), i.want, m.log)
      else Result(Nil, m.log)
  }

  /** What a relocatable instruction puts into its register. */
  function Produced(w: World, i: Instr, m: Machine): Result {
    match i
    case GetGlobal(_, k) => Result(w.glob(m.log, k), m.log + [Read(k)])
    case NotOp(_, b) => Result(Bool(Falsy(Reg(m, b))), m.log)
    case _ => Result(Nil, m.log)
  }

  predicate Relocatable(i: Instr) {
    i.GetGlobal? || i.NotOp?
  }

  function WithA(i: Instr, reg: nat): Instr {
    match i
    case GetGlobal(_, k) => GetGlobal(reg, k)
    case NotOp(_, b) => NotOp(reg, b)
    case _ => i
  }

  /** Registers below `base` are as before. */
  predicate Keeps(m: Machine, m': Machine, base: nat) {
    Agree(m.regs, m'.regs, base)
  }

  /** What a jump says about the value: it is in the register of its test, or it is a boolean. */
  predicate ExitValue(c: Code, j: nat, m: Machine, v: Value, truth: bool, bad: set<nat>) {
    && Falsy(v) != truth
    && (j in bad || if IsSet(c, j) then Reg(m, c[j - 1].b) == v else v == Bool(truth))
  }

  /** One run: its end agrees with the value `r` of the expression. */
  ghost predicate Ends(w: World, c: Code, ts: set<nat>, fs: set<nat>, d: ExpDesc, base: nat, m: Machine, r: Result,
      o: Outcome, bad: set<nat>) {
    match o
    case Done(m') => Keeps(m, m', base) && ValueOf(w, c, d, m') == r
    case Exit(j, m') =>
      && Keeps(m, m', base) && m'.log == r.log
      && ((j in ts && ExitValue(c, j, m', r.value, true, bad)) || (j in fs && ExitValue(c, j, m', r.value, false, bad)))
    case Stuck => false
  }

  /** The descriptor `d` with its lists stands for `e`, whose code starts at `p` and may also be entered
      through the jumps `ins`. */
  ghost predicate Means(w: World, c: Code, ts: set<nat>, fs: set<nat>, js: set<nat>, p: nat, ins: set<nat>,
      d: ExpDesc, e: Expr, base: nat, bad: set<nat>) {
    && Valueless(c, ts + fs, ins, bad)
    && forall m: Machine, s: Entry {:trigger Start(w, Body(c, d), ts + fs, js, p, s, m)} :: Enters(s, ins) ==>
         Ends(w, c, ts, fs, d, base, m, Eval(w, e, m.regs, m.log), Start(w, Body(c, d), ts + fs, js, p, s, m), bad)
  }

  predicate Enters(s: Entry, ins: set<nat>) {
    s.Via? ==> s.j in ins
  }

  /** Jumps that came in and left again do not bring a value. */
  ghost predicate Valueless(c: Code, open: set<nat>, ins: set<nat>, bad: set<nat>) {
    forall j {:trigger j in open} :: j in open && j in ins && j !in bad ==> !IsSet(c, j)
  }

  /** Jumps without a target, each behind a test without a register, or behind no value at all. */
  ghost predicate Pending(c: Code, s: set<nat>) {
    forall j {:trigger j in s} :: j in s ==> j < |c| && c[j].Jmp? && (IsSet(c, j) ==> c[j - 1].a == NO_REG)
  }

  /** `c'` goes on from `c`; the jumps `js` that waited for its end have found it, or still wait. */
  ghost predicate Grew(c: Code, js: set<nat>, c': Code, js': set<nat>) {
    && |c| <= |c'|
    && (forall i {:trigger c'[i]} :: 0 <= i < |c| ==>
         if i in js then c'[i].Jmp? && (if i in js' then |c'| == |c| else i + 1 + c'[i].sbx == |c|)
         else if i + 1 in js then SameTest(c[i], c'[i])
         else c'[i] == c[i])
    && (forall i :: i in js' && i < |c| ==> i in js)
  }

  lemma GrewContinues(c: Code, js: set<nat>, c': Code, js': set<nat>, open: set<nat>, open': set<nat>)
    requires Grew(c, js, c', js') && Pending(c, js) && open !! js
    requires forall i :: i < |c| ==> (i in open' <==> i in open)
    ensures Continues(c, open, js, c', open', js')
  {
    forall i | 0 <= i < |c|
      ensures if c[i].Jmp? then
           && c'[i].Jmp?
           && (i in open' <==> i in open)
           && (i !in open && i in js ==> if i in js' then |c'| == |c| else i + 1 + c'[i].sbx == |c|)
           && (i !in open && i !in js ==> c'[i] == c[i] && i !in js')
         else SameTest(c[i], c'[i])
    {
      if i in js {
        assert c[i].Jmp?;
      }
    }
  }

  /** No test waits for its jump. */
  predicate Whole(c: Code) {
    |c| > 0 ==> !IsTest(c[|c| - 1])
  }

  // ---------- Jumps to the current position find it ----------

  /** `dischargejpc`: the jumps `js` get the end of `c` as their target. */
  ghost predicate Flushed(c: Code, js: set<nat>, c': Code) {
    && Patched(c, c', js, |c|, NO_REG, |c|)
  }

  lemma FlushGrew(c: Code, js: set<nat>, c': Code, tail: Code)
    requires Flushed(c, js, c') && Pending(c, js)
    ensures Grew(c, js, c' + tail, {})
  {
    forall i | 0 <= i < |c|
      ensures if i in js then (c' + tail)[i].Jmp? && i + 1 + (c' + tail)[i].sbx == |c|
         else if i + 1 in js then SameTest(c[i], (c' + tail)[i])
         else (c' + tail)[i] == c[i]
    {
      assert (c' + tail)[i] == c'[i];
      if i !in js && i + 1 in js {
        assert IsSet(c, i + 1) <==> c[i].TestSet?;
      }
    }
  }

  /** Running to the end of `c` and on. */
  lemma StartOn(w: World, c: Code, open: set<nat>, js: set<nat>, c': Code, open': set<nat>, js': set<nat>, p: nat,
      s: Entry, m: Machine)
    requires Grew(c, js, c', js') && Pending(c, js) && open !! js
    requires forall i :: i < |c| ==> (i in open' <==> i in open)
    requires Start(w, c, open, js, p, s, m) != Stuck
    ensures Start(w, c', open', js', p, s, m) == Then(w, c', open', js', |c|, Start(w, c, open, js, p, s, m))
  {
    GrewContinues(c, js, c', js', open, open');
    ContinueStart(w, c, open, js, c', open', js', p, s, m);
  }
}
