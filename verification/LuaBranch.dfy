/**
 Conditions: code that leaves through open jumps when its value decides, and else goes on.
 */
module LuaBranch {
  import opened LuaMachine
  import opened LuaRuns
  import opened LuaMeaning
  import opened LuaGen
  import opened LuaValue
  import opened LuaLists

  /** Code with open jumps that starts where `c0` ended, when the jumps `js0` waited there. */
  ghost predicate OpenOk(c0: Code, js0: seq<nat>, loose: bool, c: Code, jpc: int, js: seq<nat>, open: set<nat>,
        bad: set<nat>) {
    && Pending(c, open + S(js)) && open !! S(js) && Whole(c) && |c0| <= |c| && IsList(c, jpc, js)
    && Frame(c0, S(js0), c, open, S(js), loose) && (loose || Valueless(c, open, S(js0), bad))
    && (forall j :: j in open ==> j >= |c0| || j in S(js0)) && Pending(c0, S(js0)) && Whole(c0)
    && BadOk(c, S(js), bad)
  }

  /** The lists of a value, and the list of the jumps that leave because of the value itself. */
  ghost predicate Branching(c0: Code, js0: seq<nat>, loose: bool, c: Code, jpc: int, js: seq<nat>, t: int,
      ts: seq<nat>, f: int, fs: seq<nat>,
                            pc: int, ps: seq<nat>, bad: set<nat>)
  {
    && OpenOk(c0, js0, loose, c, jpc, js, S(ts) + S(fs) + S(ps), bad)
    && IsList(c, t, ts) && IsList(c, f, fs) && IsList(c, pc, ps) && S(ts) !! S(fs) && (S(ts) + S(fs)) !! S(ps)
  }

  /** A condition with the list of its jumps. */
  ghost predicate CondOk(c0: Code, js0: seq<nat>, loose: bool, c: Code, jpc: int, js: seq<nat>, l: int, xs: seq<nat>,
        bad: set<nat>) {
    OpenOk(c0, js0, loose, c, jpc, js, S(xs), bad) && IsList(c, l, xs)
  }

  /** The code leaves when `e` is `truth`, in every world that has the constants `k`. */
  ghost predicate AllTests(k: seq<Value>, c: Code, ts: set<nat>, fs: set<nat>, js: seq<nat>, c0: Code, js0: seq<nat>,
      e: Expr, base: nat, truth: bool, bad: set<nat>) {
    forall w: World {:trigger Tests(w, c, ts, fs, S(js), |c0|, S(js0), e, base, truth, bad)} :: k <= w.consts ==>
      Tests(w, c, ts, fs, S(js), |c0|, S(js0), e, base, truth, bad)
  }

  ghost predicate AllLeave(k: seq<Value>, c: Code, ts: seq<nat>, fs: seq<nat>, ps: seq<nat>, js: seq<nat>, c0: Code,
      js0: seq<nat>, e: Expr, base: nat, truth: bool, bad: set<nat>) {
    AllTests(k, c, S(ts) + When(truth, S(ps)), S(fs) + When(!truth, S(ps)), js, c0, js0, e, base, truth, bad)
  }

  /** Every world that has the constants gives the descriptor a value with this truth. */
  ghost predicate Decided(k: seq<Value>, d: ExpDesc, truth: bool) {
    match d.k
    case VNil => !truth
    case VFalse => !truth
    case VTrue => truth
    case VKNum => truth
    case VK => truth && d.info < |k| && !Falsy(k[d.info])
    case _ => false
  }

  // ---------- The jumps of the value itself ----------

  lemma OkIsOpen(c0: Code, js0: seq<nat>, loose: bool, c: Code, jpc: int, js: seq<nat>, d: ExpDesc, ts: seq<nat>,
      fs: seq<nat>, bad: set<nat>)
    requires Ok(c0, js0, loose, c, jpc, js, d, ts, fs, bad)
    ensures OpenOk(c0, js0, loose, c, jpc, js, S(ts) + S(fs), bad)
  {
  }

  /** A constant that never leaves. */
  lemma BranchNever(k: seq<Value>, c0: Code, js0: seq<nat>, loose: bool, c: Code, jpc: int, js: seq<nat>, d: ExpDesc,
      ts: seq<nat>, fs: seq<nat>, e: Expr, base: nat, truth: bool, bad: set<nat>)
    requires Ok(c0, js0, loose, c, jpc, js, d, ts, fs, bad) && Decided(k, d, !truth)
    ensures Branching(c0, js0, loose, c, jpc, js, d.t, ts, d.f, fs, NO_JUMP, [], bad)
    ensures All(k, c, ts, fs, js, c0, js0, d, e, base, bad) ==>
        AllLeave(k, c, ts, fs, [], js, c0, js0, e, base, truth, bad)
  {
    EmptyList(c);
    assert S(ts) + S(fs) + {} == S(ts) + S(fs) && S(ts) + {} == S(ts) && S(fs) + {} == S(fs);
    OkIsOpen(c0, js0, loose, c, jpc, js, d, ts, fs, bad);
    if All(k, c, ts, fs, js, c0, js0, d, e, base, bad) {
      forall w: World | k <= w.consts ensures Tests(w, c, S(ts), S(fs), S(js), |c0|, S(js0), e, base, truth, bad) {
        assert Means(w, c, S(ts), S(fs), S(js), |c0|, S(js0), d, e, base, bad);
        hide Means, Tests, Ok;
        BranchConst(w, c, S(ts), S(fs), S(js), |c0|, S(js0), d, e, base, truth, bad);
      }
    }
  }

  /** An open jump at the end of the code. */
  lemma OpenAdd(c0: Code, js0: seq<nat>, loose: bool, c: Code, open: set<nat>, j: nat, bad: set<nat>)
    requires Frame(c0, S(js0), c, open, {}, loose) && Pending(c, open) && (loose || Valueless(c, open, S(js0), bad))
    requires (forall i :: i in open ==> i >= |c0| || i in S(js0)) && Pending(c0, S(js0)) && Whole(c0)
    requires |c0| <= j == |c| - 1 && c[j].Jmp? && (IsSet(c, j) ==> c[j - 1].a == NO_REG) && BadOk(c, {}, bad)
    ensures OpenOk(c0, js0, loose, c, NO_JUMP, [], open + {j}, bad)
  {
    EmptyList(c);
    assert open + {j} + {} == open + {j};
    FrameEdit(c0, S(js0), loose, c, open, {}, c, open + {j}, {});
    assert j !in S(js0);
    if !loose { assert Valueless(c, open + {j}, S(js0), bad); }
  }

  /** A list of open jumps in code that changed elsewhere. */
  lemma JoinLists(c: Code, t: int, ts: seq<nat>, f: int, fs: seq<nat>, j: nat)
    requires IsList(c, t, ts) && IsList(c, f, fs) && S(ts) !! S(fs) && j < |c| && c[j] == Jmp(NO_JUMP) &&
        j !in S(ts) && j !in S(fs)
    ensures IsList(c, j, [j]) && S([j]) == {j} && (S(ts) + S(fs)) !! S([j])
  {
    assert [j][1..] == [];
    assert IsList(c, GetJump(c, j), [j][1..]);
  }

  /** TESTSET and its jump. */
  lemma BranchSet(k: seq<Value>, c0: Code, js0: seq<nat>, loose: bool, c: Code, jpc: int, js: seq<nat>, d: ExpDesc,
      ts: seq<nat>, fs: seq<nat>,
                  c2: Code, e: Expr, base: nat, truth: bool, bad: set<nat>)
    requires Ok(c0, js0, loose, c, jpc, js, d, ts, fs, bad) && d.k.VNonReloc?
    requires |c2| == |c| + 2 && Flushed(c, S(js), c2[..|c|]) && c2[|c|] == TestSet(NO_REG, d.info, truth) &&
        c2[|c| + 1] == Jmp(NO_JUMP)
    ensures Branching(c0, js0, loose, c2, NO_JUMP, [], d.t, ts, d.f, fs, |c| + 1, [|c| + 1], bad)
    ensures All(k, c, ts, fs, js, c0, js0, d, e, base, bad) ==>
        AllLeave(k, c2, ts, fs, [|c| + 1], [], c0, js0, e, base, truth, bad)
  {
    BranchGrew(c, js, c2);
    OkParts(c0, js0, loose, c, jpc, js, d, ts, fs, bad);
    BranchSetOk(c0, js0, loose, c, jpc, js, d, ts, fs, c2, bad);
    EmptyList(c2);
    assert S([|c| + 1]) == {|c| + 1};
    if All(k, c, ts, fs, js, c0, js0, d, e, base, bad) {
      forall w: World | k <= w.consts
        ensures Tests(w, c2, S(ts) + When(truth, {|c| + 1}), S(fs) + When(!truth, {|c| + 1}), {}, |c0|, S(js0), e,
            base, truth, bad)
      {
        assert Means(w, c, S(ts), S(fs), S(js), |c0|, S(js0), d, e, base, bad);
        hide Means, Tests, Frame, Grew, IsList;
        Branch(w, c, c2, S(ts), S(fs), S(js), |c0|, S(js0), d, e, base, truth, bad);
      }
    }
  }

  lemma BranchGrew(c: Code, js: seq<nat>, c2: Code)
    requires |c2| == |c| + 2 && Flushed(c, S(js), c2[..|c|])
    ensures Pending(c, S(js)) ==> Grew(c, S(js), c2, {})
  {
    if Pending(c, S(js)) {
      FlushGrew(c, S(js), c2[..|c|], c2[|c|..]);
      assert c2 == c2[..|c|] + c2[|c|..];
    }
  }

  lemma BranchSetOk(c0: Code, js0: seq<nat>, loose: bool, c: Code, jpc: int, js: seq<nat>, d: ExpDesc, ts: seq<nat>,
      fs: seq<nat>, c2: Code, bad: set<nat>)
    requires Ok(c0, js0, loose, c, jpc, js, d, ts, fs, bad)
    requires |c2| == |c| + 2 && Grew(c, S(js), c2, {}) && c2[|c|].TestSet? && c2[|c|].a == NO_REG &&
        c2[|c| + 1] == Jmp(NO_JUMP)
    ensures Branching(c0, js0, loose, c2, NO_JUMP, [], d.t, ts, d.f, fs, |c| + 1, [|c| + 1], bad)
  {
    OkParts(c0, js0, loose, c, jpc, js, d, ts, fs, bad);
    OkIsOpen(c0, js0, loose, c, jpc, js, d, ts, fs, bad);
    OpenJs(c, S(ts) + S(fs), S(js));
    hide Grew, Frame;
    GrewList(c, S(js), c2, d.t, ts);
    GrewList(c, S(js), c2, d.f, fs);
    GrewPending(c, S(js), c2, S(ts) + S(fs));
    FrameFlush(c0, S(js0), loose, c, S(ts) + S(fs), S(js), c2);
    if !loose { ValuelessGrew(c, S(js), c2, {}, S(ts) + S(fs), S(js0), bad); }
    JoinLists(c2, d.t, ts, d.f, fs, |c| + 1);
    hide Ok;
    OpenAdd(c0, js0, loose, c2, S(ts) + S(fs), |c| + 1, bad);
  }

  lemma OpenJs(c: Code, open: set<nat>, js: set<nat>)
    requires Pending(c, open + js)
    ensures forall j :: j in open ==> j < |c|
  {
    assert forall j :: j in open ==> j in open + js;
  }

  /** A `not` that is taken back. */
  lemma BranchTaken(k: seq<Value>, c0: Code, js0: seq<nat>, loose: bool, c: Code, jpc: int, d: ExpDesc, ts: seq<nat>,
      fs: seq<nat>,
                    c2: Code, e: Expr, base: nat, truth: bool, bad: set<nat>)
    requires Ok(c0, js0, loose, c, jpc, [], d, ts, fs, bad) && d.k.VRelocable? && d.info == |c| - 1 && c[d.info].NotOp?
    requires c2 == c[..d.info] + [Test(c[d.info].b, !truth), Jmp(NO_JUMP)]
    ensures Branching(c0, js0, loose, c2, NO_JUMP, [], d.t, ts, d.f, fs, |c|, [|c|], bad)
    ensures All(k, c, ts, fs, [], c0, js0, d, e, base, bad) ==>
        AllLeave(k, c2, ts, fs, [|c|], [], c0, js0, e, base, truth, bad)
  {
    BranchTakenOk(c0, js0, loose, c, jpc, d, ts, fs, c2, bad);
    EmptyList(c2);
    assert S([|c|]) == {|c|};
    if All(k, c, ts, fs, [], c0, js0, d, e, base, bad) {
      assert c2[..d.info] == c[..d.info];
      forall w: World | k <= w.consts
        ensures Tests(w, c2, S(ts) + When(truth, {|c|}), S(fs) + When(!truth, {|c|}), {}, |c0|, S(js0), e, base,
            truth, bad)
      {
        assert Means(w, c, S(ts), S(fs), S([]), |c0|, S(js0), d, e, base, bad);
        hide Means, Tests, Frame, IsList, Branching;
        BranchNot(w, c, c2, S(ts), S(fs), |c0|, S(js0), d, e, base, truth, bad);
      }
    }
  }

  lemma BranchTakenOk(c0: Code, js0: seq<nat>, loose: bool, c: Code, jpc: int, d: ExpDesc, ts: seq<nat>, fs: seq<nat>,
      c2: Code, bad: set<nat>)
    requires Ok(c0, js0, loose, c, jpc, [], d, ts, fs, bad) && d.k.VRelocable? && d.info == |c| - 1 && c[d.info].NotOp?
    requires |c2| == |c| + 1 && c2[..d.info] == c[..d.info] && !c2[d.info].TestSet? && c2[|c|] == Jmp(NO_JUMP)
    ensures Branching(c0, js0, loose, c2, NO_JUMP, [], d.t, ts, d.f, fs, |c|, [|c|], bad)
  {
    OkParts(c0, js0, loose, c, jpc, [], d, ts, fs, bad);
    OkIsOpen(c0, js0, loose, c, jpc, [], d, ts, fs, bad);
    EmptyList(c);
    var n := d.info;
    assert S(ts) + S(fs) + {} == S(ts) + S(fs);
    PrefixLists(c, c2, n, d.t, ts, S(ts) + S(fs));
    PrefixLists(c, c2, n, d.f, fs, S(ts) + S(fs));
    PrefixOpen(c, c2, n, S(ts) + S(fs), S(js0), bad);
    assert c2[..|c0|] == c2[..n][..|c0|] && c[..|c0|] == c[..n][..|c0|];
    FrameEdit(c0, S(js0), loose, c, S(ts) + S(fs), {}, c2, S(ts) + S(fs), {});
    JoinLists(c2, d.t, ts, d.f, fs, |c|);
    hide Ok, Frame, IsList;
    OpenAdd(c0, js0, loose, c2, S(ts) + S(fs), |c|, bad);
  }

  lemma PrefixOpen(c: Code, c2: Code, n: nat, open: set<nat>, ins: set<nat>, bad: set<nat>)
    requires n == |c| - 1 && |c2| >= |c| && c2[..n] == c[..n] && Pending(c, open) && !c[n].Jmp?
    ensures Pending(c2, open) && (Valueless(c, open, ins, bad) ==> Valueless(c2, open, ins, bad)) &&
        forall j :: j in open ==>
        j < n
  {
    forall j | 0 <= j <= n ensures IsSet(c2, j) == IsSet(c, j) && (IsSet(c, j) ==> c2[j - 1] == c[j - 1]) {
      if j > 0 { assert c2[j - 1] == c2[..n][j - 1] && c[j - 1] == c[..n][j - 1]; }
    }
    forall j | j in open ensures j < n && c2[j] == c[j] {
      assert c2[j] == c2[..n][j] && c[j] == c[..n][j];
    }
  }

  lemma PrefixLists(c: Code, c2: Code, n: nat, l: int, s: seq<nat>, open: set<nat>)
    requires n == |c| - 1 && |c2| >= |c| && c2[..n] == c[..n] && Pending(c, open) && !c[n].Jmp? && IsList(c, l, s) &&
        S(s) <= open
    ensures IsList(c2, l, s)
  {
    forall j | j in s ensures j < |c| && c2[j] == c[j] {
      assert j in S(s) && j < n;
      assert c2[j] == c2[..n][j] && c[j] == c[..n][j];
    }
    ListKept(c, c2, l, s);
  }

  /** A comparison that has been emitted, inverted if it is to leave when false. */
  lemma BranchCompare(k: seq<Value>, c0: Code, js0: seq<nat>, loose: bool, c: Code, jpc: int, d: ExpDesc,
      ts: seq<nat>, fs: seq<nat>,
                      c2: Code, e: Expr, base: nat, truth: bool, bad: set<nat>)
    requires Ok(c0, js0, loose, c, jpc, [], d, ts, fs, bad) && d.k.VJmp? && 0 < d.info == |c| - 1 &&
        c[d.info - 1].Relop?
    requires var i := c[d.info - 1]; c2 == c[d.info - 1 := Relop(i.rel, i.want == truth, i.b, i.c)]
    ensures Branching(c0, js0, loose, c2, NO_JUMP, [], d.t, ts, d.f, fs, d.info, [d.info], bad)
    ensures All(k, c, ts, fs, [], c0, js0, d, e, base, bad) ==>
        AllLeave(k, c2, ts, fs, [d.info], [], c0, js0, e, base, truth, bad)
  {
    BranchCompareOk(c0, js0, loose, c, jpc, d, ts, fs, c2, bad);
    EmptyList(c2);
    assert S([d.info]) == {d.info};
    if All(k, c, ts, fs, [], c0, js0, d, e, base, bad) {
      forall w: World | k <= w.consts
        ensures Tests(w, c2, S(ts) + When(truth, {d.info}), S(fs) + When(!truth, {d.info}), {}, |c0|, S(js0), e, base,
            truth, bad)
      {
        assert Means(w, c, S(ts), S(fs), S([]), |c0|, S(js0), d, e, base, bad);
        hide Means, Tests, Frame, IsList, Branching;
        BranchJmp(w, c, c2, S(ts), S(fs), |c0|, S(js0), d, e, base, truth, bad);
      }
    }
  }

  lemma BranchCompareOk(c0: Code, js0: seq<nat>, loose: bool, c: Code, jpc: int, d: ExpDesc, ts: seq<nat>,
      fs: seq<nat>, c2: Code, bad: set<nat>)
    requires Ok(c0, js0, loose, c, jpc, [], d, ts, fs, bad) && d.k.VJmp? && 0 < d.info == |c| - 1
    requires |c2| == |c| && c2[..d.info - 1] == c[..d.info - 1] && c2[d.info - 1].Relop? && c2[d.info] == c[d.info]
    ensures Branching(c0, js0, loose, c2, NO_JUMP, [], d.t, ts, d.f, fs, d.info, [d.info], bad)
  {
    OkParts(c0, js0, loose, c, jpc, [], d, ts, fs, bad);
    OkIsOpen(c0, js0, loose, c, jpc, [], d, ts, fs, bad);
    OkOpen(c0, js0, loose, c, jpc, [], d, ts, fs, bad);
    NoneWaits(c0, js0, loose, c, jpc, d, ts, fs, bad);
    EmptyList(c);
    var n := d.info - 1;
    hide Ok, Frame, IsList, Shape, Branching, Whole;
    assert S(ts) + S(fs) + {} == S(ts) + S(fs);
    CompareOpen(c, c2, n, S(ts) + S(fs), S(js0), d.t, ts, d.f, fs, bad);
    assert c2[..|c0|] == c2[..n][..|c0|] && c[..|c0|] == c[..n][..|c0|];
    FrameEdit(c0, S(js0), loose, c, S(ts) + S(fs), {}, c2, S(ts) + S(fs), {});
    JoinLists(c2, d.t, ts, d.f, fs, d.info);
    OpenAdd(c0, js0, loose, c2, S(ts) + S(fs), d.info, bad);
    ForeverLists(c0, js0, loose, c2, d.t, ts, d.f, fs, d.info, [d.info], bad);
  }

  lemma NoneWaits(c0: Code, js0: seq<nat>, loose: bool, c: Code, jpc: int, d: ExpDesc, ts: seq<nat>, fs: seq<nat>,
        bad: set<nat>)
    requires Ok(c0, js0, loose, c, jpc, [], d, ts, fs, bad) && d.k.VJmp? && 0 < d.info == |c| - 1
    ensures |c0| <= d.info - 1 && c[d.info] == Jmp(NO_JUMP) && c[d.info - 1].Relop? && d.info !in S(ts) &&
        d.info !in S(fs)
  {
  }

  lemma CompareOpen(c: Code, c2: Code, n: nat, open: set<nat>, ins: set<nat>, t: int, ts: seq<nat>, f: int,
      fs: seq<nat>, bad: set<nat>)
    requires n == |c| - 2 && |c2| == |c| && c2[..n] == c[..n] && Pending(c, open) && c[n].Relop? && c2[n].Relop? &&
        c2[n + 1] == c[n + 1]
    requires IsList(c, t, ts) && IsList(c, f, fs) && open == S(ts) + S(fs)
    ensures Pending(c2, open) && (Valueless(c, open, ins, bad) ==> Valueless(c2, open, ins, bad))
    ensures IsList(c2, t, ts) && IsList(c2, f, fs)
  {
    forall j | 0 <= j < |c| ensures IsSet(c2, j) == IsSet(c, j) && (IsSet(c, j) ==> c2[j - 1] == c[j - 1]) &&
        (c[j].Jmp? ==> c2[j] == c[j]) {
      if j < n { assert c2[j] == c2[..n][j] && c[j] == c[..n][j]; }
      if 0 < j <= n { assert c2[j - 1] == c2[..n][j - 1] && c[j - 1] == c[..n][j - 1]; }
    }
    forall j | j in ts || j in fs ensures j < |c| && c[j].Jmp? {
      assert j in open;
    }
    ListKept(c, c2, t, ts);
    ListKept(c, c2, f, fs);
  }

  /** The jumps to the current position bring values. */
  ghost predicate Mixes(c: Code, js: seq<nat>) {
    exists j :: j in S(js) && IsSet(c, j)
  }

  /** `luaK_jump` for a constant that always leaves.  Values that wait here are misplaced from now on. */
  lemma BranchForever(k: seq<Value>, c0: Code, js0: seq<nat>, loose: bool, c: Code, jpc: int, js: seq<nat>,
      d: ExpDesc, ts: seq<nat>, fs: seq<nat>, c2: Code, e: Expr, base: nat, truth: bool, bad: set<nat>)
    requires Ok(c0, js0, loose, c, jpc, js, d, ts, fs, bad) && (d.k.VTrue? || d.k.VFalse?) && d.k.VTrue? == truth
    requires |c2| == |c| + 1 && c2[..|c|] == c && c2[|c|].Jmp? && IsList(c2, |c|, [|c|] + js)
    ensures Branching(c0, js0, loose, c2, NO_JUMP, [], d.t, ts, d.f, fs, |c|, [|c|] + js, bad + Misplaced(c, S(js)))
    ensures All(k, c, ts, fs, js, c0, js0, d, e, base, bad) ==>
              AllLeave(k, c2, ts, fs, [|c|] + js, [], c0, js0, e, base, truth, bad + Misplaced(c, S(js)))
  {
    BranchForeverOk(c0, js0, loose, c, jpc, js, d, ts, fs, c2, bad);
    EmptyList(c2);
    assert S([|c|] + js) == S(js) + {|c|};
    if All(k, c, ts, fs, js, c0, js0, d, e, base, bad) {
      assert SameButJumps(c, c2[..|c|], S(js));
      forall w: World | k <= w.consts
        ensures Tests(w, c2, S(ts) + When(truth, S(js) + {|c|}), S(fs) + When(!truth, S(js) + {|c|}), {}, |c0|,
                  S(js0), e, base, truth, bad + Misplaced(c, S(js)))
      {
        assert Means(w, c, S(ts), S(fs), S(js), |c0|, S(js0), d, e, base, bad);
        hide Means, Tests, Frame, IsList, Branching;
        BranchAlways(w, c, c2, S(ts), S(fs), S(js), |c0|, S(js0), d, e, base, truth, bad);
      }
    }
  }

  lemma BranchForeverOk(c0: Code, js0: seq<nat>, loose: bool, c: Code, jpc: int, js: seq<nat>, d: ExpDesc,
      ts: seq<nat>, fs: seq<nat>, c2: Code, bad: set<nat>)
    requires Ok(c0, js0, loose, c, jpc, js, d, ts, fs, bad)
    requires |c2| == |c| + 1 && c2[..|c|] == c && c2[|c|].Jmp? && IsList(c2, |c|, [|c|] + js)
    ensures Branching(c0, js0, loose, c2, NO_JUMP, [], d.t, ts, d.f, fs, |c|, [|c|] + js, bad + Misplaced(c, S(js)))
  {
    hide *;
    ForeverOpen(c0, js0, loose, c, jpc, js, d, ts, fs, c2, bad);
    OkParts(c0, js0, loose, c, jpc, js, d, ts, fs, bad);
    OkOpen(c0, js0, loose, c, jpc, js, d, ts, fs, bad);
    ForeverSets(c, S(ts), S(fs), js);
    AddedLists(c, c2, d.t, ts);
    AddedLists(c, c2, d.f, fs);
    ForeverLists(c0, js0, loose, c2, d.t, ts, d.f, fs, |c|, [|c|] + js, bad + Misplaced(c, S(js)));
  }

  lemma ForeverSets(c: Code, ts: set<nat>, fs: set<nat>, js: seq<nat>)
    requires Pending(c, ts + fs + S(js)) && (ts + fs) !! S(js)
    ensures ts + fs + S(js) + {|c|} == ts + fs + S([|c|] + js) && (ts + fs) !! S([|c|] + js)
  {
    assert forall j :: j in ts + fs + S(js) ==> j < |c|;
  }

  lemma ForeverLists(c0: Code, js0: seq<nat>, loose: bool, c: Code, t: int, ts: seq<nat>, f: int, fs: seq<nat>,
      pc: int, ps: seq<nat>, bad: set<nat>)
    requires OpenOk(c0, js0, loose, c, NO_JUMP, [], S(ts) + S(fs) + S(ps), bad)
    requires IsList(c, t, ts) && IsList(c, f, fs) && IsList(c, pc, ps) && S(ts) !! S(fs) && (S(ts) + S(fs)) !! S(ps)
    ensures Branching(c0, js0, loose, c, NO_JUMP, [], t, ts, f, fs, pc, ps, bad)
  {
  }

  lemma ForeverOpen(c0: Code, js0: seq<nat>, loose: bool, c: Code, jpc: int, js: seq<nat>, d: ExpDesc,
      ts: seq<nat>, fs: seq<nat>, c2: Code, bad: set<nat>)
    requires Ok(c0, js0, loose, c, jpc, js, d, ts, fs, bad)
    requires |c2| == |c| + 1 && c2[..|c|] == c && c2[|c|].Jmp?
    ensures OpenOk(c0, js0, loose, c2, NO_JUMP, [], S(ts) + S(fs) + S(js) + {|c|}, bad + Misplaced(c, S(js)))
  {
    OkParts(c0, js0, loose, c, jpc, js, d, ts, fs, bad);
    OkIsOpen(c0, js0, loose, c, jpc, js, d, ts, fs, bad);
    hide Ok, Shape, IsList;
    var open, bad' := S(ts) + S(fs) + S(js), bad + Misplaced(c, S(js));
    OpenJs(c, open, {});
    assert open + {} == open;
    ForeverFrame(c0, S(js0), loose, c, S(ts) + S(fs), S(js), c2);
    AddedOpen(c, c2, open, S(js0), bad');
    if !loose { ForeverValueless(c, S(ts) + S(fs), S(js), S(js0), bad); }
    ForeverBounds(c0, S(js0), loose, c, S(ts) + S(fs), S(js));
    hide Frame, Valueless;
    OpenAdd(c0, js0, loose, c2, open, |c|, bad');
  }

  lemma AddedLists(c: Code, c2: Code, l: int, s: seq<nat>)
    requires |c2| > |c| && c2[..|c|] == c && IsList(c, l, s)
    ensures IsList(c2, l, s)
  {
    ListJumps(c, l, s);
    forall j | j in s ensures c2[j] == c[j] {
      assert c2[j] == c2[..|c|][j];
    }
    ListKept(c, c2, l, s);
  }

  lemma ForeverFrame(c0: Code, js0: set<nat>, loose: bool, c: Code, open: set<nat>, js: set<nat>, c2: Code)
    requires Frame(c0, js0, c, open, js, loose) && |c2| > |c| && c2[..|c|] == c
    ensures Frame(c0, js0, c2, open + js, {}, loose)
  {
    assert c2[..|c0|] == c2[..|c|][..|c0|];
    FrameEdit(c0, js0, loose, c, open, js, c2, open + js, {});
  }

  lemma FrameLoosen(c0: Code, js0: set<nat>, loose: bool, loose': bool, c: Code, open: set<nat>, js: set<nat>)
    requires Frame(c0, js0, c, open, js, loose) && (loose ==> loose')
    ensures Frame(c0, js0, c, open, js, loose')
  {
    forall i | 0 <= i < |c0| ensures FrameAt(c0, js0, c, open, js, i, loose') {
      assert c[i] == c[i] && FrameAt(c0, js0, c, open, js, i, loose);
    }
  }

  lemma AddedOpen(c: Code, c2: Code, open: set<nat>, ins: set<nat>, bad: set<nat>)
    requires |c2| > |c| && c2[..|c|] == c && Pending(c, open) && Whole(c)
    ensures Pending(c2, open) && (Valueless(c, open, ins, bad) ==> Valueless(c2, open, ins, bad)) && !IsSet(c2, |c|)
  {
    forall j | 0 <= j <= |c| ensures IsSet(c2, j) == IsSet(c, j) && (IsSet(c, j) ==> c2[j - 1] == c[j - 1]) {
      if j > 0 { assert c2[j - 1] == c2[..|c|][j - 1]; }
    }
    forall j | j in open ensures j < |c| && c2[j] == c[j] {
      assert c2[j] == c2[..|c|][j];
    }
  }

  lemma ForeverValueless(c: Code, open: set<nat>, js: set<nat>, ins: set<nat>, bad: set<nat>)
    requires Valueless(c, open, ins, bad)
    ensures Valueless(c, open + js, ins, bad + Misplaced(c, js))
  {
  }

  lemma ForeverBounds(c0: Code, js0: set<nat>, loose: bool, c: Code, open: set<nat>, js: set<nat>)
    requires Frame(c0, js0, c, open, js, loose) && forall j :: j in open ==> j >= |c0| || j in js0
    ensures forall j :: j in open + js ==> j >= |c0| || j in js0
  {
  }

  lemma AllTestsWeaken(k: seq<Value>, c: Code, ts: set<nat>, fs: set<nat>, js: seq<nat>, c0: Code, js0: seq<nat>,
      e: Expr, base: nat, truth: bool, bad: set<nat>, bad': set<nat>)
    requires AllTests(k, c, ts, fs, js, c0, js0, e, base, truth, bad)
    requires forall j :: j in ts + fs && j in bad ==> j in bad'
    ensures AllTests(k, c, ts, fs, js, c0, js0, e, base, truth, bad')
  {
    forall w: World | k <= w.consts ensures Tests(w, c, ts, fs, S(js), |c0|, S(js0), e, base, truth, bad') {
      assert Tests(w, c, ts, fs, S(js), |c0|, S(js0), e, base, truth, bad);
      hide Eval, Start;
      forall m: Machine, s: Entry | Enters(s, S(js0))
        ensures TestEnds(c, ts, fs, truth, base, m, Eval(w, e, m.regs, m.log),
                  Start(w, c, ts + fs, S(js), |c0|, s, m), bad')
      {
        assert TestEnds(c, ts, fs, truth, base, m, Eval(w, e, m.regs, m.log),
            Start(w, c, ts + fs, S(js), |c0|, s, m), bad);
      }
    }
  }
}
