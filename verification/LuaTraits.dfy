/**
 What the code generator's bookkeeping comes to for an expression, without any code: the kind of
 the value, which jumps wait where, whether one of them brings a value, and whether that value is misplaced.
 */
module LuaTraits {
  import opened LuaMachine
  import opened LuaRuns
  import opened LuaMeaning
  import opened LuaLists
  import opened LuaBranch

  datatype Sort =
    | NilValue | TrueValue | FalseValue | Constant(info: nat) | Number(n: int)
    | Register | GlobalName | Fetched | Negation | Comparison

  /** The kind of the value; whether its true and its false list are in use, hold a jump that brings a value, and
      hold one whose value is misplaced; whether a jump with a value waits for the current position; and the
      constants so far. */
  datatype Traits = Traits(sort: Sort, t: bool, f: bool, tSet: bool, fSet: bool, tBad: bool, fBad: bool, here: bool,
      consts: seq<Value>)

  function SortOf(c: Code, d: ExpDesc): Sort {
    match d.k
    case VNil => NilValue
    case VTrue => TrueValue
    case VFalse => FalseValue
    case VK => Constant(d.info)
    case VKNum => Number(d.nval)
    case VGlobal => GlobalName
    case VJmp => Comparison
    case VRelocable => if d.info < |c| && c[d.info].NotOp? then Negation else Fetched
    case _ => Register
  }

  /** The list holds a misplaced value. */
  ghost predicate Spoilt(s: seq<nat>, bad: set<nat>) {
    exists j :: j in S(s) && j in bad
  }

  /** A register for the values of both lists asks for a misplaced one. */
  ghost predicate Asks(ts: seq<nat>, fs: seq<nat>, bad: set<nat>) {
    Spoilt(ts, bad) || Spoilt(fs, bad)
  }

  ghost function TraitsOf(c: Code, d: ExpDesc, ts: seq<nat>, fs: seq<nat>, js: seq<nat>, k: seq<Value>,
      bad: set<nat>): Traits {
    Traits(SortOf(c, d), ts != [], fs != [], Mixes(c, ts), Mixes(c, fs), Spoilt(ts, bad), Spoilt(fs, bad),
      Mixes(c, js), k)
  }

  // ---------- The steps of the generator ----------

  /** `addk` */
  function Added(k: seq<Value>, v: Value): seq<Value> {
    if v in k then k else k + [v]
  }

  /** The constants after the value has been loaded into a register. */
  function AfterLoad(k: seq<Value>, s: Sort): seq<Value> {
    if s.Number? then Added(k, Other(s.n)) else k
  }

  predicate IsConstant(s: Sort) {
    s.NilValue? || s.TrueValue? || s.FalseValue? || s.Constant? || s.Number?
  }

  /** A condition: is the list that leaves in use, does it hold a jump that brings a value, and one whose value is
      misplaced?  What waits behind the condition? */
  datatype Exits = Exits(any: bool, set_: bool, bad: bool, here: bool, consts: seq<Value>)

  /** The jump that the value itself decides, in `luaK_goiftrue` (`cond` is false) and `luaK_goiffalse` (`cond`
      is true): none, an unconditional one with those that wait, a comparison's, or one behind a TEST or TESTSET. */
  function Decide(a: Traits, cond: bool): Exits {
    if if cond then a.sort.NilValue? || a.sort.FalseValue?
       else a.sort.Constant? || a.sort.Number? || a.sort.TrueValue? then
      Exits(false, false, false, a.here, a.consts)
    else if if cond then a.sort.TrueValue? else a.sort.FalseValue? then
      Exits(true, a.here, a.here, false, a.consts)
    else if a.sort.Comparison? || a.sort.Negation? then
      Exits(true, false, false, false, a.consts)
    else
      Exits(true, true, false, false, AfterLoad(a.consts, a.sort))
  }

  /** The same with the value's own lists: one joins the jump, the other goes to the current position. */
  function Leave(a: Traits, cond: bool): Exits {
    var x := Decide(a, cond);
    if cond then Exits(a.t || x.any, a.tSet || x.set_, a.tBad || x.bad, x.here || a.fSet, x.consts)
    else Exits(a.f || x.any, a.fSet || x.set_, a.fBad || x.bad, x.here || a.tSet, x.consts)
  }

  /** The list `xs` that leaves, the waiting jumps and the constants are as `x` says. */
  ghost predicate Exiting(x: Exits, c: Code, xs: seq<nat>, js: seq<nat>, k: seq<Value>, bad: set<nat>) {
    && (x.any <==> xs != []) && (x.set_ <==> Mixes(c, xs)) && (x.bad <==> Spoilt(xs, bad))
    && (x.here <==> Mixes(c, js)) && x.consts == k
  }

  function Opposite(s: Sort): Sort {
    match s
    case NilValue => TrueValue
    case FalseValue => TrueValue
    case TrueValue => FalseValue
    case Constant(_) => FalseValue
    case Number(_) => FalseValue
    case Comparison => Comparison
    case _ => Negation
  }

  /** `codenot` */
  function Inverted(a: Traits): Traits {
    Traits(Opposite(a.sort), a.f, a.t, false, false, false, false, a.here && IsConstant(a.sort), a.consts)
  }

  /** `luaK_dischargevars` */
  function Named(a: Traits): Traits {
    if a.sort.GlobalName? then a.(sort := Fetched, here := false) else a
  }

  /** `luaK_posfix` of `and` and `or`, behind a first operand that leaves through a list. */
  function Joined(truth: bool, x: Exits, b: Traits): Traits {
    Appended(truth, x, Named(b))
  }

  function Appended(truth: bool, x: Exits, b: Traits): Traits {
    if truth then b.(t := b.t || x.any, tSet := b.tSet || x.set_, tBad := b.tBad || x.bad)
    else b.(f := b.f || x.any, fSet := b.fSet || x.set_, fBad := b.fBad || x.bad)
  }

  /** `luaK_exp2RK`: what waits behind the operand of a comparison, and the constants. */
  function AsOperand(a: Traits): (bool, seq<Value>) {
    if a.t || a.f then (false, AfterLoad(a.consts, a.sort))
    else
      match a.sort
      case NilValue => if |a.consts| <= MAXINDEXRK then (a.here, Added(a.consts, Nil)) else (false, a.consts)
      case TrueValue => if |a.consts| <= MAXINDEXRK then (a.here, Added(a.consts, Bool(true))) else (false, a.consts)
      case FalseValue => if |a.consts| <= MAXINDEXRK then (a.here, Added(a.consts, Bool(false))) else (false, a.consts)
      case Number(n) => (if |a.consts| <= MAXINDEXRK then a.here else false, Added(a.consts, Other(n)))
      case Constant(i) => (if i <= MAXINDEXRK then a.here else false, a.consts)
      case Register => (a.here, a.consts)
      case _ => (false, a.consts)
  }

  /** A misplaced value is asked for: the lists get a register for their values. */
  function Asked(a: Traits): bool {
    a.tBad || a.fBad
  }

  /** `simpleexp`, and variables. */
  function Plainly(s: Sort, here: bool, k: seq<Value>): Traits {
    Traits(s, false, false, false, false, false, false, here, k)
  }

  /** `subexpr`: the traits of the descriptor, and whether some operand of a comparison asked for a misplaced value.
      At first a jump that brings a value may wait already. */
  function Trace(e: Expr, here: bool, k: seq<Value>): (Traits, bool) {
    match e
    case Not(x) =>
      var a := Trace(x, here, k);
      (Inverted(a.0), a.1)
    case And(x, y) =>
      var a := Trace(x, here, k);
      var l := Leave(a.0, false);
      var b := Trace(y, l.here, l.consts);
      (Joined(false, l, b.0), a.1 || b.1)
    case Or(x, y) =>
      var a := Trace(x, here, k);
      var l := Leave(a.0, true);
      var b := Trace(y, l.here, l.consts);
      (Joined(true, l, b.0), a.1 || b.1)
    case Comp(_, x, y) =>
      var a := Trace(x, here, k);
      var o := AsOperand(a.0);
      var b := Trace(y, o.0, o.1);
      (Plainly(Comparison, false, AsOperand(b.0).1), a.1 || Asked(a.0) || b.1 || Asked(b.0))
    case Null => (Plainly(NilValue, here, k), false)
    case True => (Plainly(TrueValue, here, k), false)
    case False => (Plainly(FalseValue, here, k), false)
    case Str(i) => (Plainly(Constant(i), here, k), false)
    case Num(n) => (Plainly(Number(n), here, k), false)
    case Local(_) => (Plainly(Register, here, k), false)
    case Global(_) => (Plainly(GlobalName, here, k), false)
  }

  /** The value of the expression is put into a register: does the code ask for a misplaced value anywhere? */
  predicate Loses(e: Expr, here: bool, k: seq<Value>) {
    Trace(e, here, k).1 || Asked(Trace(e, here, k).0)
  }

  // ---------- A simple rule ----------

  /** The sort of the value: that of the second operand of `and` and `or`. */
  function Decision(e: Expr): Sort {
    match e
    case Not(x) => Opposite(Decision(x))
    case And(_, y) => if Decision(y).GlobalName? then Fetched else Decision(y)
    case Or(_, y) => if Decision(y).GlobalName? then Fetched else Decision(y)
    case Comp(_, _, _) => Comparison
    case _ => Trace(e, false, []).0.sort
  }

  /** No first operand of `or` ends in `true`, and none of `and` in `false`: no jump is always taken. */
  predicate Undecided(e: Expr) {
    match e
    case Not(x) => Undecided(x)
    case And(x, y) => Undecided(x) && Undecided(y) && !Decision(x).FalseValue?
    case Or(x, y) => Undecided(x) && Undecided(y) && !Decision(x).TrueValue?
    case Comp(_, x, y) => Undecided(x) && Undecided(y)
    case _ => true
  }

  /** What waits at first has no influence on the sort of the value, and without a jump that is always taken no value
      is misplaced. */
  lemma {:induction false} UndecidedLosesNothing(e: Expr, here: bool, k: seq<Value>)
    ensures Trace(e, here, k).0.sort == Decision(e)
    ensures Undecided(e) ==> !Loses(e, here, k)
  {
    match e
    case Not(x) => UndecidedLosesNothing(x, here, k);
    case And(x, y) =>
      UndecidedLosesNothing(x, here, k);
      var l := Leave(Trace(x, here, k).0, false);
      UndecidedLosesNothing(y, l.here, l.consts);
    case Or(x, y) =>
      UndecidedLosesNothing(x, here, k);
      var l := Leave(Trace(x, here, k).0, true);
      UndecidedLosesNothing(y, l.here, l.consts);
    case Comp(_, x, y) =>
      UndecidedLosesNothing(x, here, k);
      var o := AsOperand(Trace(x, here, k).0);
      UndecidedLosesNothing(y, o.0, o.1);
    case _ =>
  }

  /** Behind `not` only the truth of the operand matters: whatever its lists hold, nothing is lost by them. */
  lemma NotForgives(e: Expr, here: bool, k: seq<Value>)
    ensures Loses(Not(e), here, k) <==> Trace(e, here, k).1
  {
  }

  // ---------- Jumps that bring values, while the code changes ----------

  /** The jumps `s` bring values exactly if they did before. */
  ghost predicate KeepsSet(c: Code, c': Code, s: seq<nat>) {
    Mixes(c', s) <==> Mixes(c, s)
  }

  ghost predicate AreJumps(c: Code, s: set<nat>) {
    forall j {:trigger j in s} :: j in s ==> j < |c| && c[j].Jmp?
  }

  lemma PendingJumps(c: Code, s: set<nat>)
    requires Pending(c, s)
    ensures AreJumps(c, s)
  {
  }

  lemma SetSame(c: Code, c': Code, s: seq<nat>)
    requires forall j :: j in S(s) ==> (IsSet(c', j) <==> IsSet(c, j))
    ensures KeepsSet(c, c', s)
  {
  }

  lemma SetPrefix(c: Code, c': Code, s: seq<nat>)
    requires |c| <= |c'| && c'[..|c|] == c && AreJumps(c, S(s))
    ensures KeepsSet(c, c', s)
  {
    forall j | j in S(s) ensures IsSet(c', j) <==> IsSet(c, j) {
      assert j > 0 ==> c'[..|c|][j - 1] == c'[j - 1];
    }
    SetSame(c, c', s);
  }

  lemma SetPatched(c: Code, c': Code, p: set<nat>, vtarget: int, reg: nat, dtarget: int, s: seq<nat>)
    requires Patched(c, c', p, vtarget, reg, dtarget) && AreJumps(c, p) && AreJumps(c, S(s)) && S(s) !! p
    ensures KeepsSet(c, c', s)
  {
    forall j | j in S(s) ensures IsSet(c', j) <==> IsSet(c, j) {
      if j > 0 {
        assert c'[j - 1] == c'[j - 1] && (j - 1 in p ==> c[j - 1].Jmp?);
      }
    }
    SetSame(c, c', s);
  }

  lemma SetFlushed(c: Code, js: set<nat>, c': Code, s: seq<nat>)
    requires |c| <= |c'| && Flushed(c, js, c'[..|c|]) && AreJumps(c, js) && AreJumps(c, S(s)) && S(s) !! js
    ensures KeepsSet(c, c', s)
  {
    var c1 := c'[..|c|];
    SetPatched(c, c1, js, |c|, NO_REG, |c|, s);
    forall j | j in S(s) ensures IsSet(c', j) <==> IsSet(c1, j) {
      assert j > 0 ==> c1[j - 1] == c'[j - 1];
    }
    SetSame(c1, c', s);
  }

  lemma SetJumps(c: Code, c': Code, p: set<nat>, s: seq<nat>)
    requires SameButJumps(c, c', p) && AreJumps(c, S(s))
    ensures KeepsSet(c, c', s)
  {
    forall j | j in S(s) ensures IsSet(c', j) <==> IsSet(c, j) {
      assert j > 0 ==> c'[j - 1] == c'[j - 1];
    }
    SetSame(c, c', s);
  }

  lemma SetDropped(c: Code, c': Code, p: set<nat>, s: seq<nat>)
    requires Dropped(c, c', p) && AreJumps(c, S(s))
    ensures S(s) <= p ==> !Mixes(c', s)
    ensures S(s) !! p ==> KeepsSet(c, c', s)
  {
    forall j | j in S(s) && j > 0 ensures c'[j - 1] == if j in p then PatchTest(c[j - 1], NO_REG) else c[j - 1] {
    }
  }

  lemma SetFrame(c: Code, js: set<nat>, c': Code, open: set<nat>, here: set<nat>, loose: bool, s: seq<nat>)
    requires Frame(c, js, c', open, here, loose) && AreJumps(c, js) && AreJumps(c, S(s)) && S(s) !! js
    ensures KeepsSet(c, c', s)
  {
    forall j | j in S(s) ensures IsSet(c', j) <==> IsSet(c, j) {
      if j > 0 {
        assert c'[j - 1] == c'[j - 1] && (j - 1 in js ==> c[j - 1].Jmp?);
      }
    }
    SetSame(c, c', s);
  }

  lemma MixesNone(c: Code)
    ensures !Mixes(c, [])
  {
  }

  lemma MixesBoth(c: Code, a: seq<nat>, b: seq<nat>)
    ensures Mixes(c, a + b) <==> Mixes(c, a) || Mixes(c, b)
  {
    assert S(a + b) == S(a) + S(b);
  }

  lemma MixesOne(c: Code, j: nat)
    ensures Mixes(c, [j]) <==> IsSet(c, j)
  {
    assert S([j]) == {j};
  }

  lemma KeepsTwice(c: Code, c1: Code, c2: Code, s: seq<nat>)
    requires KeepsSet(c, c1, s) && KeepsSet(c1, c2, s)
    ensures KeepsSet(c, c2, s)
  {
  }

  // ---------- The same for a descriptor and its lists ----------

  lemma OkJumps(c0: Code, js0: seq<nat>, loose: bool, c: Code, jpc: int, js: seq<nat>, d: ExpDesc, ts: seq<nat>,
      fs: seq<nat>, bad: set<nat>)
    requires Ok(c0, js0, loose, c, jpc, js, d, ts, fs, bad)
    ensures AreJumps(c, S(ts)) && AreJumps(c, S(fs)) && AreJumps(c, S(js))
    ensures S(ts) !! S(js) && S(fs) !! S(js) && S(ts) !! S(fs)
  {
    OkParts(c0, js0, loose, c, jpc, js, d, ts, fs, bad);
    PendingJumps(c, S(ts) + S(fs) + S(js));
  }

  lemma OkFlushed(c0: Code, js0: seq<nat>, loose: bool, c: Code, jpc: int, js: seq<nat>, d: ExpDesc, ts: seq<nat>,
      fs: seq<nat>, c': Code, bad: set<nat>)
    requires Ok(c0, js0, loose, c, jpc, js, d, ts, fs, bad) && |c| <= |c'| && Flushed(c, S(js), c'[..|c|])
    ensures KeepsSet(c, c', ts) && KeepsSet(c, c', fs)
  {
    OkJumps(c0, js0, loose, c, jpc, js, d, ts, fs, bad);
    SetFlushed(c, S(js), c', ts);
    SetFlushed(c, S(js), c', fs);
  }

  /** Only the last instruction, which is no jump, has changed or gone. */
  lemma OkLast(c0: Code, js0: seq<nat>, loose: bool, c: Code, jpc: int, js: seq<nat>, d: ExpDesc, ts: seq<nat>,
      fs: seq<nat>, c': Code, bad: set<nat>)
    requires Ok(c0, js0, loose, c, jpc, js, d, ts, fs, bad) && c != [] && !c[|c| - 1].Jmp?
    requires |c'| >= |c| - 1 && c'[..|c| - 1] == c[..|c| - 1]
    ensures KeepsSet(c, c', ts) && KeepsSet(c, c', fs)
  {
    OkJumps(c0, js0, loose, c, jpc, js, d, ts, fs, bad);
    SetLast(c, c', ts);
    SetLast(c, c', fs);
  }

  lemma SetLast(c: Code, c': Code, s: seq<nat>)
    requires AreJumps(c, S(s)) && c != [] && !c[|c| - 1].Jmp? && |c'| >= |c| - 1 && c'[..|c| - 1] == c[..|c| - 1]
    ensures KeepsSet(c, c', s)
  {
    forall j | j in S(s) ensures IsSet(c', j) <==> IsSet(c, j) {
      if j > 0 {
        assert j < |c| - 1 && c'[..|c| - 1][j - 1] == c[..|c| - 1][j - 1];
      }
    }
    SetSame(c, c', s);
  }

  lemma OkPrefix(c0: Code, js0: seq<nat>, loose: bool, c: Code, jpc: int, js: seq<nat>, d: ExpDesc, ts: seq<nat>,
      fs: seq<nat>, c': Code, bad: set<nat>)
    requires Ok(c0, js0, loose, c, jpc, js, d, ts, fs, bad) && |c| <= |c'| && c'[..|c|] == c
    ensures KeepsSet(c, c', ts) && KeepsSet(c, c', fs) && KeepsSet(c, c', js)
  {
    OkJumps(c0, js0, loose, c, jpc, js, d, ts, fs, bad);
    SetPrefix(c, c', ts);
    SetPrefix(c, c', fs);
    SetPrefix(c, c', js);
  }

  /** The jump behind complete code brings no value. */
  lemma NewUnset(c: Code, c': Code)
    requires Whole(c) && |c'| > |c| && c'[..|c|] == c
    ensures !IsSet(c', |c|)
  {
    assert |c| > 0 ==> c'[..|c|][|c| - 1] == c'[|c| - 1];
  }

  // ---------- Misplaced values ----------

  lemma SpoiltNone(bad: set<nat>)
    ensures !Spoilt([], bad)
  {
  }

  lemma SpoiltBoth(a: seq<nat>, b: seq<nat>, bad: set<nat>)
    ensures Spoilt(a + b, bad) <==> Spoilt(a, bad) || Spoilt(b, bad)
  {
    assert S(a + b) == S(a) + S(b);
  }

  lemma SpoiltOne(j: nat, bad: set<nat>)
    ensures Spoilt([j], bad) <==> j in bad
  {
    assert S([j]) == {j};
  }

  /** The same jumps of both lists are misplaced. */
  ghost predicate SameSpoilt(ts: seq<nat>, fs: seq<nat>, bad: set<nat>, bad': set<nat>) {
    (Spoilt(ts, bad') <==> Spoilt(ts, bad)) && (Spoilt(fs, bad') <==> Spoilt(fs, bad))
  }

  /** The same jumps of the code before `c0` are misplaced, but for those that waited at its end. */
  ghost predicate SameBad(c0: Code, js0: seq<nat>, bad: set<nat>, bad': set<nat>) {
    forall j {:trigger j in bad'} {:trigger j in bad} :: j < |c0| && j !in S(js0) ==> (j in bad' <==> j in bad)
  }

  lemma SameBadRefl(c0: Code, js0: seq<nat>, bad: set<nat>)
    ensures SameBad(c0, js0, bad, bad)
  {
  }

  lemma SameBadTrans(c0: Code, js0: seq<nat>, bad: set<nat>, bad1: set<nat>, bad2: set<nat>)
    requires SameBad(c0, js0, bad, bad1) && SameBad(c0, js0, bad1, bad2)
    ensures SameBad(c0, js0, bad, bad2)
  {
  }
}
