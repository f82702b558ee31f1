/**
 How running code changes when open jumps get targets and when instructions are added.
 */
module LuaRuns {
  import opened LuaMachine

  // ---------- Open jumps that now go to the end ----------

  function Landed(p: set<nat>, o: Outcome): Outcome {
    match o
    case Exit(j, m) => if j in p then Done(m) else o
    case _ => o
  }

  /** `c'` differs from `c` at most in where open and landing jumps point. */
  ghost predicate SameButJumps(c: Code, c': Code, pending: set<nat>) {
    |c'| == |c| && forall i {:trigger c'[i]} :: 0 <= i < |c| ==>
        c'[i] == c[i] || (c[i].Jmp? && c'[i].Jmp? && i in pending)
  }

  lemma {:induction false} LandRun(w: World, c: Code, c': Code, open: set<nat>, here: set<nat>, p: set<nat>, pc: nat,
      m: Machine)
    requires SameButJumps(c, c', open + here) && p <= open
    ensures Run(w, c', open - p, here + p, pc, m) == Landed(p, Run(w, c, open, here, pc, m))
    decreases |c| - pc, 1
  {
    if pc < |c| {
      var i := c[pc];
      assert IsTest(c'[pc]) <==> IsTest(i);
      if IsTest(i) {
        if pc + 1 < |c| && c[pc + 1].Jmp? {
          assert c'[pc + 1].Jmp?;
          var t := Tested(w, i, m);
          if t.0 { LandJump(w, c, c', open, here, p, pc + 1, t.1); }
              else { LandRun(w, c, c', open, here, p, pc + 2, t.1); }
        } else if pc + 1 < |c| {
          assert !c'[pc + 1].Jmp?;
        }
      } else if i.Jmp? {
        assert pc > 0 ==> (IsTest(c'[pc - 1]) <==> IsTest(c[pc - 1]));
        LandJump(w, c, c', open, here, p, pc, m);
      } else {
        var skip := i.LoadBool? && i.skip;
        LandRun(w, c, c', open, here, p, if skip then pc + 2 else pc + 1, Plain(w, i, m));
      }
    }
  }

  lemma {:induction false} LandJump(w: World, c: Code, c': Code, open: set<nat>, here: set<nat>, p: set<nat>, j: nat,
      m: Machine)
    requires SameButJumps(c, c', open + here) && p <= open && j < |c| && c[j].Jmp?
    ensures c'[j].Jmp?
    ensures Jump(w, c', open - p, here + p, j, m) == Landed(p, Jump(w, c, open, here, j, m))
    decreases |c| - j, 0
  {
    assert c'[j] == c[j] || j in open + here;
    if j !in open && j !in here && j < j + 1 + c[j].sbx <= |c| {
      LandRun(w, c, c', open, here, p, j + 1 + c[j].sbx, m);
    }
  }

  // ---------- More code ----------

  /** What happens after falling through. */
  function Then(w: World, c: Code, open: set<nat>, here: set<nat>, pc: nat, o: Outcome): Outcome {
    match o
    case Done(m) => Run(w, c, open, here, pc, m)
    case _ => o
  }

  /** A test that controls a landing jump lost its register, or kept having none. */
  predicate SameTest(i: Instr, i': Instr) {
    i' == i || (i.TestSet? && i.a == NO_REG && i' == Test(i.b, i.want))
  }

  /** `c'` goes on where `c` ended: jumps that landed at the end of `c` go there, open ones stay open,
      and the rest is unchanged. */
  ghost predicate Continues(c: Code, open: set<nat>, here: set<nat>, c': Code, open': set<nat>, here': set<nat>) {
    && |c| <= |c'|
    && (forall i {:trigger c'[i]} :: 0 <= i < |c| ==>
         if c[i].Jmp? then
           && c'[i].Jmp?
           && (i in open' <==> i in open)
           && (i !in open && i in here ==> if i in here' then |c'| == |c| else i + 1 + c'[i].sbx == |c|)
           && (i !in open && i !in here ==> c'[i] == c[i] && i !in here')
         else SameTest(c[i], c'[i]))
  }

  lemma {:induction false} ContinueRun(w: World, c: Code, open: set<nat>, here: set<nat>, c': Code, open': set<nat>,
      here': set<nat>,
                                       pc: nat, m: Machine)
    requires Continues(c, open, here, c', open', here') && Run(w, c, open, here, pc, m) != Stuck
    ensures Run(w, c', open', here', pc, m) == Then(w, c', open', here', |c|, Run(w, c, open, here, pc, m))
    decreases |c| - pc, 1
  {
    if pc < |c| {
      var i := c[pc];
      assert SameTest(i, c'[pc]) || i.Jmp?;
      if IsTest(i) {
        assert c[pc + 1].Jmp? && c'[pc + 1].Jmp?;
        var t := Tested(w, i, m);
        assert Tested(w, c'[pc], m) == t;
        if t.0 { ContinueJump(w, c, open, here, c', open', here', pc + 1, t.1); }
            else { ContinueRun(w, c, open, here, c', open', here', pc + 2, t.1); }
      } else if i.Jmp? {
        assert pc > 0 ==> (IsTest(c'[pc - 1]) <==> IsTest(c[pc - 1]));
        ContinueJump(w, c, open, here, c', open', here', pc, m);
      } else {
        var skip := i.LoadBool? && i.skip;
        ContinueRun(w, c, open, here, c', open', here', if skip then pc + 2 else pc + 1, Plain(w, i, m));
      }
    }
  }

  lemma {:induction false} ContinueJump(w: World, c: Code, open: set<nat>, here: set<nat>, c': Code, open': set<nat>,
      here': set<nat>,
                                        j: nat, m: Machine)
    requires Continues(c, open, here, c', open', here') && j < |c| && c[j].Jmp? && Jump(w, c, open, here, j, m) != Stuck
    ensures c'[j].Jmp?
    ensures Jump(w, c', open', here', j, m) == Then(w, c', open', here', |c|, Jump(w, c, open, here, j, m))
    decreases |c| - j, 0
  {
    assert c'[j].Jmp? && (j in open' <==> j in open);
    if j in open {
    } else if j in here {
      if j in here' {
        assert |c'| == |c|;
      }
    } else {
      ContinueRun(w, c, open, here, c', open', here', j + 1 + c[j].sbx, m);
    }
  }

  // ---------- Open jumps that now have a target ----------

  /** `patchtestreg` */
  function PatchTest(i: Instr, reg: nat): Instr {
    if !i.TestSet? then i
    else if reg != NO_REG && reg != i.b then TestSet(reg, i.b, i.want)
    else Test(i.b, i.want)
  }

  predicate IsSet(c: Code, j: nat) {
    0 < j <= |c| && c[j - 1].TestSet?
  }

  /** Every jump of `p` now goes to `vtarget` with its value in `reg` if it has one, else to `dtarget`. */
  ghost predicate Patched(c: Code, c': Code, p: set<nat>, vtarget: int, reg: nat, dtarget: int) {
    && |c'| == |c|
    && (forall i {:trigger c'[i]} :: 0 <= i < |c| ==>
         if i in p then c'[i].Jmp? && i + 1 + c'[i].sbx == (if IsSet(c, i) then vtarget else dtarget)
         else if i + 1 in p then c'[i] == PatchTest(c[i], reg)
         else c'[i] == c[i])
  }

  /** The jumps of `p` are open, their tests have no register, and their targets lie ahead. */
  ghost predicate Patchable(c: Code, open: set<nat>, here: set<nat>, p: set<nat>, vtarget: int, dtarget: int) {
    && p <= open && p !! here
    && (forall j {:trigger j in p} :: j in p ==>
         && j < |c| && c[j].Jmp? && (IsSet(c, j) ==> c[j - 1].a == NO_REG)
         && j < (if IsSet(c, j) then vtarget else dtarget) <= |c|)
  }

  /** Where a patched jump leads. */
  function Resume(w: World, c: Code, c': Code, open': set<nat>, here: set<nat>, p: set<nat>, vtarget: int, reg: nat,
      dtarget: int,
                  o: Outcome): Outcome
  {
    match o
    case Exit(j, m) =>
      if j !in p then o
      else if IsSet(c, j) then
        (if 0 <= vtarget then Run(w, c', open', here, vtarget, if reg != NO_REG then Kept(m, reg, c[j - 1].b) else m)
            else Stuck)
      else (if 0 <= dtarget then Run(w, c', open', here, dtarget, m) else Stuck)
    case _ => o
  }

  /** A value that is already in place stays there. */
  function Kept(m: Machine, reg: nat, b: nat): Machine {
    if reg == b then m else SetReg(m, reg, Reg(m, b))
  }

  lemma {:induction false} PatchRun(w: World, c: Code, c': Code, open: set<nat>, here: set<nat>, p: set<nat>,
                                    vtarget: int, reg: nat, dtarget: int, pc: nat, m: Machine)
    requires Patched(c, c', p, vtarget, reg, dtarget) && Patchable(c, open, here, p, vtarget, dtarget)
    ensures Run(w, c', open - p, here, pc, m) ==
            Resume(w, c, c', open - p, here, p, vtarget, reg, dtarget, Run(w, c, open, here, pc, m))
    decreases |c| - pc, 1
  {
    if pc < |c| {
      var i := c[pc];
      if IsTest(i) {
        assert IsTest(c'[pc]) by { assert pc !in p; }
        if pc + 1 < |c| && c[pc + 1].Jmp? {
          assert c'[pc + 1].Jmp?;
          PatchTested(w, c, c', open, here, p, vtarget, reg, dtarget, pc, m);
        } else if pc + 1 < |c| {
          assert pc + 1 !in p && !c'[pc + 1].Jmp?;
        }
      } else if i.Jmp? {
        assert c'[pc].Jmp?;
        assert pc > 0 ==> (IsTest(c'[pc - 1]) <==> IsTest(c[pc - 1]));
        if pc > 0 && IsTest(c[pc - 1]) { return; }
        PatchJump(w, c, c', open, here, p, vtarget, reg, dtarget, pc, m);
      } else {
        assert pc !in p && c'[pc] == i;
        var skip := i.LoadBool? && i.skip;
        PatchRun(w, c, c', open, here, p, vtarget, reg, dtarget, if skip then pc + 2 else pc + 1, Plain(w, i, m));
      }
    }
  }

  lemma {:induction false} PatchTested(w: World, c: Code, c': Code, open: set<nat>, here: set<nat>, p: set<nat>,
                                       vtarget: int, reg: nat, dtarget: int, pc: nat, m: Machine)
    requires Patched(c, c', p, vtarget, reg, dtarget) && Patchable(c, open, here, p, vtarget, dtarget)
    requires pc + 1 < |c| && IsTest(c[pc]) && c[pc + 1].Jmp? && IsTest(c'[pc]) && c'[pc + 1].Jmp?
    ensures Run(w, c', open - p, here, pc, m) ==
            Resume(w, c, c', open - p, here, p, vtarget, reg, dtarget, Run(w, c, open, here, pc, m))
    decreases |c| - pc, 0
  {
    var i := c[pc];
    var t, t' := Tested(w, i, m), Tested(w, c'[pc], m);
    assert pc !in p;
    if !t.0 {
      assert t' == t;
      PatchRun(w, c, c', open, here, p, vtarget, reg, dtarget, pc + 2, t.1);
    } else if pc + 1 in p {
      assert pc + 1 in open && IsSet(c, pc + 1) == i.TestSet?;
      assert t'.0;
      assert i.TestSet? ==> t'.1 == (if reg != NO_REG then Kept(m, reg, i.b) else m) && t.1 == m;
    } else {
      assert c'[pc] == i;
      PatchJump(w, c, c', open, here, p, vtarget, reg, dtarget, pc + 1, t.1);
    }
  }

  lemma {:induction false} PatchJump(w: World, c: Code, c': Code, open: set<nat>, here: set<nat>, p: set<nat>,
                                     vtarget: int, reg: nat, dtarget: int, j: nat, m: Machine)
    requires Patched(c, c', p, vtarget, reg, dtarget) && Patchable(c, open, here, p, vtarget, dtarget)
    requires j < |c| && c[j].Jmp? && c'[j].Jmp?
    requires j in p && IsSet(c, j) ==> reg == NO_REG
    ensures Jump(w, c', open - p, here, j, m) ==
            Resume(w, c, c', open - p, here, p, vtarget, reg, dtarget, Jump(w, c, open, here, j, m))
    decreases |c| - j, 0
  {
    if j !in p {
      assert c'[j] == c[j] || j + 1 in p;
      assert c'[j] == c[j];
      if j !in open && j !in here && j < j + 1 + c[j].sbx <= |c| {
        PatchRun(w, c, c', open, here, p, vtarget, reg, dtarget, j + 1 + c[j].sbx, m);
      }
    }
  }

  // ---------- Starting points ----------

  /** Code is entered at its top, or through a jump that waits for its top. */
  datatype Entry = Top | Via(j: nat)

  function Start(w: World, c: Code, open: set<nat>, here: set<nat>, p: nat, s: Entry, m: Machine): Outcome {
    match s
    case Top => Run(w, c, open, here, p, m)
    case Via(j) => if j < |c| && c[j].Jmp? then Jump(w, c, open, here, j, m) else Stuck
  }

  lemma LandStart(w: World, c: Code, c': Code, open: set<nat>, here: set<nat>, go: set<nat>, p: nat, s: Entry,
      m: Machine)
    requires SameButJumps(c, c', open + here) && go <= open
    ensures Start(w, c', open - go, here + go, p, s, m) == Landed(go, Start(w, c, open, here, p, s, m))
  {
    match s
    case Top => LandRun(w, c, c', open, here, go, p, m);
    case Via(j) =>
      if j < |c| {
        assert c'[j].Jmp? <==> c[j].Jmp?;
        if c[j].Jmp? {
          LandJump(w, c, c', open, here, go, j, m);
        }
      }
  }

  lemma ContinueStart(w: World, c: Code, open: set<nat>, here: set<nat>, c': Code, open': set<nat>, here': set<nat>,
                      p: nat, s: Entry, m: Machine)
    requires Continues(c, open, here, c', open', here') && Start(w, c, open, here, p, s, m) != Stuck
    ensures Start(w, c', open', here', p, s, m) == Then(w, c', open', here', |c|, Start(w, c, open, here, p, s, m))
  {
    match s
    case Top => ContinueRun(w, c, open, here, c', open', here', p, m);
    case Via(j) => ContinueJump(w, c, open, here, c', open', here', j, m);
  }

  lemma PatchStart(w: World, c: Code, c': Code, open: set<nat>, here: set<nat>, go: set<nat>,
                   vtarget: int, reg: nat, dtarget: int, p: nat, s: Entry, m: Machine)
    requires Patched(c, c', go, vtarget, reg, dtarget) && Patchable(c, open, here, go, vtarget, dtarget)
    requires s.Via? && s.j in go && IsSet(c, s.j) ==> reg == NO_REG
    ensures Start(w, c', open - go, here, p, s, m) ==
            Resume(w, c, c', open - go, here, go, vtarget, reg, dtarget, Start(w, c, open, here, p, s, m))
  {
    match s
    case Top => PatchRun(w, c, c', open, here, go, vtarget, reg, dtarget, p, m);
    case Via(j) =>
      if j < |c| {
        assert c'[j].Jmp? <==> c[j].Jmp?;
        if c[j].Jmp? {
          PatchJump(w, c, c', open, here, go, vtarget, reg, dtarget, j, m);
        }
      }
  }

  // ---------- A second piece of code behind the first ----------

  /** The first piece `c` with the jumps `js` that wait for its end, inside `c'`: only those jumps, and
      the tests before them, may have changed; if `loose`, such a test may even have got a register. */
  ghost predicate Frame(c: Code, js: set<nat>, c': Code, open': set<nat>, here': set<nat>, loose: bool) {
    && |c| <= |c'|
    && (forall i {:trigger c'[i]} :: 0 <= i < |c| ==> FrameAt(c, js, c', open', here', i, loose))
    && (forall i {:trigger i in open'} {:trigger i in here'} :: (i in open' || i in here') && i < |c| ==> i in js)
  }

  predicate FrameAt(c: Code, js: set<nat>, c': Code, open': set<nat>, here': set<nat>, i: nat, loose: bool)
    requires i < |c| <= |c'|
  {
    if i in js then c'[i].Jmp? && (i in open' || i in here' || i + 1 + c'[i].sbx >= |c|)
    else if i + 1 in js then SameTest(c[i], c'[i]) || (loose && c[i].TestSet? && IsTest(c'[i]))
    else c'[i] == c[i]
  }

  /** What follows the first piece: the second one, from its top or through a jump that waited for it. */
  function Next(w: World, c: Code, js: set<nat>, c': Code, open': set<nat>, here': set<nat>, o: Outcome): Outcome {
    match o
    case Done(m) => Run(w, c', open', here', |c|, m)
    case Exit(j, m) => if j in js then Start(w, c', open', here', |c|, Via(j), m) else o
    case Stuck => Stuck
  }

  lemma {:induction false} NextRun(w: World, c: Code, xs: set<nat>, js: set<nat>, c': Code, open': set<nat>,
      here': set<nat>, pc: nat, m: Machine)
    requires Frame(c, js, c', open' - xs, here', false) && xs !! js && xs !! here' && xs <= open'
    requires forall j :: j in js ==> j < |c| && c[j].Jmp?
    requires Run(w, c, xs + js, {}, pc, m) != Stuck
    ensures Run(w, c', open', here', pc, m) == Next(w, c, js, c', open', here', Run(w, c, xs + js, {}, pc, m))
    decreases |c| - pc, 1
  {
    if pc < |c| {
      var i := c[pc];
      assert SameTest(i, c'[pc]) || i.Jmp?;
      if IsTest(i) {
        assert c[pc + 1].Jmp? && c'[pc + 1].Jmp?;
        var t := Tested(w, i, m);
        assert Tested(w, c'[pc], m) == t;
        if t.0 { NextJump(w, c, xs, js, c', open', here', pc + 1, t.1); }
            else { NextRun(w, c, xs, js, c', open', here', pc + 2, t.1); }
      } else if i.Jmp? {
        assert c'[pc].Jmp? && (pc > 0 ==> (IsTest(c'[pc - 1]) <==> IsTest(c[pc - 1])));
        NextJump(w, c, xs, js, c', open', here', pc, m);
      } else {
        var skip := i.LoadBool? && i.skip;
        NextRun(w, c, xs, js, c', open', here', if skip then pc + 2 else pc + 1, Plain(w, i, m));
      }
    }
  }

  lemma {:induction false} NextJump(w: World, c: Code, xs: set<nat>, js: set<nat>, c': Code, open': set<nat>,
      here': set<nat>, j: nat, m: Machine)
    requires Frame(c, js, c', open' - xs, here', false) && xs !! js && xs !! here' && xs <= open'
    requires forall i :: i in js ==> i < |c| && c[i].Jmp?
    requires j < |c| && c[j].Jmp? && Jump(w, c, xs + js, {}, j, m) != Stuck
    ensures c'[j].Jmp?
    ensures Jump(w, c', open', here', j, m) == Next(w, c, js, c', open', here', Jump(w, c, xs + js, {}, j, m))
    decreases |c| - j, 0
  {
    assert c'[j].Jmp?;
    if j !in xs && j !in js {
      assert j in open' ==> j in open' - xs;
      assert FrameAt(c, js, c', open' - xs, here', j, false) && c'[j] == c[j] && j !in open' && j !in here';
      NextRun(w, c, xs, js, c', open', here', j + 1 + c[j].sbx, m);
    }
  }

  lemma NextStart(w: World, c: Code, xs: set<nat>, js: set<nat>, c': Code, open': set<nat>, here': set<nat>, p: nat,
      s: Entry, m: Machine)
    requires Frame(c, js, c', open' - xs, here', false) && xs !! js && xs !! here' && xs <= open'
    requires forall i :: i in js ==> i < |c| && c[i].Jmp?
    requires Start(w, c, xs + js, {}, p, s, m) != Stuck
    ensures Start(w, c', open', here', p, s, m) == Next(w, c, js, c', open', here', Start(w, c, xs + js, {}, p, s, m))
  {
    match s
    case Top => NextRun(w, c, xs, js, c', open', here', p, m);
    case Via(j) => NextJump(w, c, xs, js, c', open', here', j, m);
  }

  /** Open jumps before the starting point play no part. */
  lemma {:induction false} OpenBelow(w: World, c: Code, open: set<nat>, below: set<nat>, here: set<nat>, pc: nat,
      m: Machine)
    requires forall j :: j in below ==> j < pc
    ensures Run(w, c, open + below, here, pc, m) == Run(w, c, open, here, pc, m)
    decreases |c| - pc, 1
  {
    if pc < |c| {
      var i := c[pc];
      if IsTest(i) {
        if pc + 1 < |c| && c[pc + 1].Jmp? {
          var t := Tested(w, i, m);
          if t.0 { JumpBelow(w, c, open, below, here, pc + 1, t.1); }
              else { OpenBelow(w, c, open, below, here, pc + 2, t.1); }
        }
      } else if i.Jmp? {
        JumpBelow(w, c, open, below, here, pc, m);
      } else {
        var skip := i.LoadBool? && i.skip;
        OpenBelow(w, c, open, below, here, if skip then pc + 2 else pc + 1, Plain(w, i, m));
      }
    }
  }

  lemma {:induction false} JumpBelow(w: World, c: Code, open: set<nat>, below: set<nat>, here: set<nat>, j: nat,
      m: Machine)
    requires j < |c| && c[j].Jmp? && j !in below
    requires forall i :: i in below ==> i < j || j in open || j in here || i < j + 1 + c[j].sbx
    ensures Jump(w, c, open + below, here, j, m) == Jump(w, c, open, here, j, m)
    decreases |c| - j, 0
  {
    if j !in open && j !in here && j < j + 1 + c[j].sbx <= |c| {
      OpenBelow(w, c, open, below, here, j + 1 + c[j].sbx, m);
    }
  }
}
