/**
 Two operands one after the other: `and`, `or` and comparisons.
 */
module LuaSequence {
  import opened LuaMachine
  import opened LuaRuns
  import opened LuaMeaning
  import opened LuaGen
  import opened LuaValue
  import opened LuaLists
  import opened LuaBranch
  import opened LuaJoin

  /** A piece behind a piece behind `c0`. */
  lemma FrameTrans(c0: Code, js0: set<nat>, loose: bool, c1: Code, xs: set<nat>, js1: set<nat>, c2: Code,
      open: set<nat>, js: set<nat>)
    requires Frame(c0, js0, c1, xs, js1, loose) && Pending(c1, xs + js1) && xs !! js1 && Whole(c0)
    requires Frame(c1, js1, c2, open, js, loose)
    ensures Frame(c0, js0, c2, open + xs, js, loose)
  {
    forall i | 0 <= i < |c0| ensures FrameAt(c0, js0, c2, open + xs, js, i, loose) {
      assert c1[i] == c1[i] && c2[i] == c2[i];
      assert FrameAt(c0, js0, c1, xs, js1, i, loose) && FrameAt(c1, js1, c2, open, js, i, loose);
      assert i in js1 ==> i in xs + js1;
      TransAt(c0, js0, loose, c1, xs, js1, c2, open, js, i);
    }
  }

  lemma TransAt(c0: Code, js0: set<nat>, loose: bool, c1: Code, xs: set<nat>, js1: set<nat>, c2: Code, open: set<nat>,
      js: set<nat>, i: nat)
    requires i < |c0| <= |c1| <= |c2| && FrameAt(c0, js0, c1, xs, js1, i, loose) &&
        FrameAt(c1, js1, c2, open, js, i, loose)
    requires (i in js1 ==> i in js0) && (i + 1 in js1 && i + 1 < |c0| ==> i + 1 in js0) && (i in xs ==> i in js0)
    requires (i in js1 ==> c1[i].Jmp?) && (i + 1 == |c0| ==> !IsTest(c0[i])) && xs !! js1
    ensures FrameAt(c0, js0, c2, open + xs, js, i, loose)
  {
  }

  /** What is known of the two pieces together. */
  ghost predicate Together(c0: Code, js0: seq<nat>, loose: bool, c: Code, js: seq<nat>, d: ExpDesc, ts: seq<nat>,
      fs: seq<nat>, l: int, xs: seq<nat>, bad: set<nat>) {
    && Frame(c0, S(js0), c, S(ts) + S(fs) + S(xs), S(js), loose) && IsList(c, l, xs) && S(xs) !! S(ts) + S(fs) + S(js)
    && Pending(c, S(ts) + S(fs) + S(xs) + S(js)) && (loose || Valueless(c, S(ts) + S(fs) + S(xs), S(js0), bad))
    && (forall j :: j in S(ts) + S(fs) + S(xs) ==> j >= |c0| || j in S(js0)) && |c0| <= |c|
    && (d.k.VRelocable? ==> |c0| <= d.info) && (d.k.VJmp? ==> |c0| < d.info && d.info !in S(xs))
  }

  lemma PutTogether(c0: Code, js0: seq<nat>, loose1: bool, c1: Code, jpc1: int, js1: seq<nat>, l: int, xs: seq<nat>,
      bad1: set<nat>, loose: bool, c: Code, jpc: int, js: seq<nat>, d: ExpDesc, ts: seq<nat>, fs: seq<nat>,
          bad: set<nat>)
    requires CondOk(c0, js0, loose1, c1, jpc1, js1, l, xs, bad1) && Ok(c1, js1, loose, c, jpc, js, d, ts, fs, bad) &&
        (loose1 ==> loose)
    requires forall j :: j in S(xs) && j in bad1 ==> j in bad
    ensures Together(c0, js0, loose, c, js, d, ts, fs, l, xs, bad)
  {
    FrameLoosen(c0, S(js0), loose1, loose, c1, S(xs), S(js1));
    OkParts(c1, js1, loose, c, jpc, js, d, ts, fs, bad);
    OkOpen(c1, js1, loose, c, jpc, js, d, ts, fs, bad);
    FrameTrans(c0, S(js0), loose, c1, S(xs), S(js1), c, S(ts) + S(fs), S(js));
    KeptApart(c1, js1, loose, c, S(ts) + S(fs), S(js), l, xs);
    OpenTogether(c0, S(js0), c1, S(xs), S(js1), S(ts) + S(fs));
    if !loose { ValuelessTogether(c1, S(js1), S(xs), c, S(ts) + S(fs), S(js), S(js0), bad); }
    assert S(ts) + S(fs) + S(js) + S(xs) == S(ts) + S(fs) + S(xs) + S(js);
    InfoApart(c1, S(xs), S(js1), S(ts), S(fs), S(js), c, d);
  }

  lemma InfoApart(c1: Code, xs: set<nat>, js1: set<nat>, ts: set<nat>, fs: set<nat>, js: set<nat>, c: Code, d: ExpDesc)
    requires Pending(c1, xs + js1) && Shape(c, ts, fs, js, |c1|, js1, d)
    ensures (d.k.VRelocable? ==> |c1| <= d.info) && (d.k.VJmp? ==> |c1| < d.info && d.info !in xs)
  {
    assert forall j :: j in xs ==> j in xs + js1;
  }

  lemma KeptApart(c1: Code, js1: seq<nat>, loose: bool, c: Code, open: set<nat>, js: set<nat>, l: int, xs: seq<nat>)
    requires Frame(c1, S(js1), c, open, js, loose) && Pending(c1, S(xs) + S(js1)) && S(xs) !! S(js1) &&
        IsList(c1, l, xs) && Pending(c, open + js)
    ensures IsList(c, l, xs) && S(xs) !! open + js && Pending(c, open + js + S(xs))
  {
    forall j | j in xs ensures j < |c1| && c[j] == c1[j] && j !in open + js && c[j].Jmp? &&
        (IsSet(c, j) ==> c[j - 1].a == NO_REG) {
      assert j in S(xs) + S(js1) && c[j] == c[j];
      if j > 0 {
        assert c[j - 1] == c[j - 1];
        if j - 1 in S(js1) { assert j - 1 in S(xs) + S(js1); }
      }
    }
    ListKept(c1, c, l, xs);
  }

  lemma OpenTogether(c0: Code, js0: set<nat>, c1: Code, xs: set<nat>, js1: set<nat>, open: set<nat>)
    requires |c0| <= |c1| && (forall j :: j in xs ==> j >= |c0| || j in js0) &&
        (forall j :: j in open ==> j >= |c1| || j in js1)
    requires forall j :: j in js1 && j < |c0| ==> j in js0
    ensures forall j :: j in open + xs ==> j >= |c0| || j in js0
  {
  }

  lemma ValuelessTogether(c1: Code, js1: set<nat>, xs: set<nat>, c: Code, open: set<nat>, js: set<nat>,
        ins: set<nat>, bad: set<nat>)
    requires Frame(c1, js1, c, open, js, false) && Pending(c1, xs + js1) && xs !! js1 && Valueless(c1, xs, ins, bad) &&
        Valueless(c, open, js1, bad)
    requires (forall j :: j in open ==> j < |c| && (j >= |c1| || j in js1)) && forall j :: j in ins ==> j < |c1|
    ensures Valueless(c, open + xs, ins, bad)
  {
    SeqValueless(c1, js1, xs, c, open, js, ins, bad);
  }

  /** `luaK_posfix` of `and` and `or`: the list of the first operand joins that of the second. */
  lemma SequenceOk(c0: Code, js0: seq<nat>, c1: Code, js1: seq<nat>, loose: bool, c: Code, jpc: int, js: seq<nat>,
      d: ExpDesc, ts: seq<nat>, fs: seq<nat>,
                   l: int, xs: seq<nat>, truth: bool, c2: Code, r: ExpDesc, bad: set<nat>)
    requires Together(c0, js0, loose, c, js, d, ts, fs, l, xs, bad) && Ok(c1, js1, loose, c, jpc, js, d, ts, fs, bad) &&
        Pending(c0, S(js0)) && Whole(c0)
    requires SameButJumps(c, c2, S(if truth then ts else fs)) &&
        IsList(c2, if truth then r.t else r.f, (if truth then ts else fs) + xs)
    requires r == if truth then d.(t := r.t) else d.(f := r.f)
    ensures Ok(c0, js0, loose, c2, jpc, js, r, if truth then ts + xs else ts, if truth then fs else fs + xs, bad)
    ensures SameButJumps(c, c2, S(ts) + S(fs) + S(xs) + S(js))
  {
    var ts', fs' := if truth then ts + xs else ts, if truth then fs else fs + xs;
    SequenceLists(c1, js1, loose, c, jpc, js, d, ts, fs, truth, c2, bad);
    SequenceSets(c0, js0, loose, c, js, d, ts, fs, l, xs, truth, c2, bad);
    TogetherShape(c0, js0, c1, js1, c, jpc, js, d, ts, fs, loose, l, xs, bad);
    assert Shape(c, S(ts'), S(fs'), S(js), |c0|, S(js0), d);
    hide *;
    SameShape(c, c2, S(ts'), S(fs'), S(js), |c0|, S(js0), d);
    Relisted(c2, S(ts'), S(fs'), S(js), |c0|, S(js0), d, r);
    OkMake(c0, js0, loose, c2, jpc, js, r, ts', fs', bad);
  }

  lemma Relisted(c: Code, ts: set<nat>, fs: set<nat>, js: set<nat>, p: nat, ins: set<nat>, d: ExpDesc, r: ExpDesc)
    requires Shape(c, ts, fs, js, p, ins, d) && (r.k, r.info) == (d.k, d.info)
    ensures Shape(c, ts, fs, js, p, ins, r)
  {
  }

  lemma SequenceLists(c1: Code, js1: seq<nat>, loose: bool, c: Code, jpc: int, js: seq<nat>, d: ExpDesc, ts: seq<nat>,
      fs: seq<nat>, truth: bool, c2: Code, bad: set<nat>)
    requires Ok(c1, js1, loose, c, jpc, js, d, ts, fs, bad) && SameButJumps(c, c2, S(if truth then ts else fs))
    ensures IsList(c2, if truth then d.f else d.t, if truth then fs else ts) && IsList(c2, jpc, js)
  {
    var stay := if truth then ts else fs;
    OkParts(c1, js1, loose, c, jpc, js, d, ts, fs, bad);
    OkOpen(c1, js1, loose, c, jpc, js, d, ts, fs, bad);
    hide *;
    SameList(c, c2, S(stay), if truth then d.f else d.t, if truth then fs else ts);
    SameList(c, c2, S(stay), jpc, js);
  }

  lemma SequenceSets(c0: Code, js0: seq<nat>, loose: bool, c: Code, js: seq<nat>, d: ExpDesc, ts: seq<nat>,
      fs: seq<nat>, l: int, xs: seq<nat>, truth: bool, c2: Code, bad: set<nat>)
    requires Together(c0, js0, loose, c, js, d, ts, fs, l, xs, bad) && SameButJumps(c, c2, S(if truth then ts else fs))
    ensures var ts', fs' := if truth then ts + xs else ts, if truth then fs else fs + xs;
            && Frame(c0, S(js0), c2, S(ts') + S(fs'), S(js), loose) && SameButJumps(c, c2, S(ts') + S(fs') + S(js))
            && (loose || Valueless(c2, S(ts') + S(fs'), S(js0), bad))
    ensures SameButJumps(c, c2, S(ts) + S(fs) + S(xs) + S(js))
  {
    var ts', fs' := if truth then ts + xs else ts, if truth then fs else fs + xs;
    var open, stay := S(ts) + S(fs) + S(xs), if truth then ts else fs;
    SumSets(ts, xs);
    SumSets(fs, xs);
    assert S(ts') + S(fs') == open && S(stay) <= open + S(js);
    hide Frame, IsList, Pending;
    SameTwice(c, c2, c2, S(stay), {}, open + S(js));
    SamePending(c, c2, open + S(js), open, S(js0), bad);
    FrameLink(c0, S(js0), loose, c, open, S(js), c2, open, S(js));
  }

  lemma TogetherShape(c0: Code, js0: seq<nat>, c1: Code, js1: seq<nat>, c: Code, jpc: int, js: seq<nat>, d: ExpDesc,
      ts: seq<nat>, fs: seq<nat>,
                      loose: bool, l: int, xs: seq<nat>, bad: set<nat>)
    requires Together(c0, js0, loose, c, js, d, ts, fs, l, xs, bad) && Ok(c1, js1, loose, c, jpc, js, d, ts, fs, bad) &&
        Pending(c0, S(js0))
    ensures Shape(c, S(ts + xs), S(fs), S(js), |c0|, S(js0), d) && Shape(c, S(ts), S(fs + xs), S(js), |c0|, S(js0), d)
  {
    SumSets(ts, xs);
    SumSets(fs, xs);
    hide Frame, IsList;
    assert S(ts) + S(xs) + S(fs) + S(js) == S(ts) + S(fs) + S(xs) + S(js);
    assert S(ts) + (S(fs) + S(xs)) + S(js) == S(ts) + S(fs) + S(xs) + S(js);
    assert S(ts) + S(xs) + S(fs) == S(ts) + S(fs) + S(xs) && S(ts) + (S(fs) + S(xs)) == S(ts) + S(fs) + S(xs);
  }

  lemma SequenceAll(k1: seq<Value>, k: seq<Value>, c0: Code, js0: seq<nat>, c1: Code, jpc1: int, js1: seq<nat>,
      bad1: set<nat>, c: Code, jpc: int, js: seq<nat>,
                    d: ExpDesc, ts: seq<nat>, fs: seq<nat>, l: int, xs: seq<nat>, truth: bool, c2: Code, r: ExpDesc,
                        a: Expr, b: Expr, base: nat, n: nat, bad: set<nat>)
    requires CondOk(c0, js0, false, c1, jpc1, js1, l, xs, bad1) && Ok(c1, js1, false, c, jpc, js, d, ts, fs, bad) &&
        k1 <= k &&
        Scoped(b, n, k1) && n <= base
    requires AllTests(k1, c1, When(truth, S(xs)), When(!truth, S(xs)), js1, c0, js0, a, base, truth, bad) &&
        All(k, c, ts, fs, js, c1, js1, d, b, base, bad)
    requires SameButJumps(c, c2, S(ts) + S(fs) + S(xs) + S(js)) && (r.k, r.info, r.nval) == (d.k, d.info, d.nval)
    requires Together(c0, js0, false, c, js, d, ts, fs, l, xs, bad)
    ensures All(k, c2, if truth then ts + xs else ts, if truth then fs else fs + xs, js, c0, js0, r, if truth then
        Or(a, b) else And(a, b), base, bad)
  {
    var ts', fs' := if truth then ts + xs else ts, if truth then fs else fs + xs;
    var e := if truth then Or(a, b) else And(a, b);
    SumSets(ts, xs);
    SumSets(fs, xs);
    OkOpen(c1, js1, false, c, jpc, js, d, ts, fs, bad);
    CondParts(c0, js0, false, c1, jpc1, js1, l, xs, bad1);
    TogetherShape(c0, js0, c1, js1, c, jpc, js, d, ts, fs, false, l, xs, bad);
    assert S(ts') + S(fs') + S(js) == S(ts) + S(fs) + S(xs) + S(js);
    assert S(ts') == S(ts) + When(truth, S(xs)) && S(fs') == S(fs) + When(!truth, S(xs));
    forall w: World | k <= w.consts ensures Means(w, c2, S(ts'), S(fs'), S(js), |c0|, S(js0), r, e, base, bad) {
      assert k1 <= w.consts;
      assert Tests(w, c1, When(truth, S(xs)), When(!truth, S(xs)), S(js1), |c0|, S(js0), a, base, truth, bad);
      assert Means(w, c, S(ts), S(fs), S(js), |c1|, S(js1), d, b, base, bad);
      hide Means, Tests, Frame, Shape, Ok, CondOk, Together, IsList, SameButJumps, All, AllTests, Pending, S, When;
      Sequenced(w, c1, S(js1), S(xs), c, S(ts), S(fs), S(js), |c0|, S(js0), d, a, b, base, truth, n, k1, bad);
      MeansSame(w, c, c2, S(ts'), S(fs'), S(js), |c0|, S(js0), d, e, base, bad);
      Reread(w, c2, S(ts'), S(fs'), S(js), |c0|, S(js0), d, r, e, base, bad);
    }
  }

  lemma CondParts(c0: Code, js0: seq<nat>, loose: bool, c: Code, jpc: int, js: seq<nat>, l: int, xs: seq<nat>,
        bad: set<nat>)
    requires CondOk(c0, js0, loose, c, jpc, js, l, xs, bad)
    ensures Pending(c, S(xs) + S(js)) && S(xs) !! S(js) && (forall j :: j in S(js0) ==> j < |c0| <= |c|) &&
        Pending(c, S(js)) && Whole(c) && IsList(c, jpc, js) && BadOk(c, S(js), bad)
    ensures IsList(c, l, xs) && Pending(c0, S(js0)) && Whole(c0) && |c0| <= |c|
  {
  }

  /** The heads of the lists do not matter for the meaning. */
  lemma Reread(w: World, c: Code, ts: set<nat>, fs: set<nat>, js: set<nat>, p: nat, ins: set<nat>, d: ExpDesc,
      r: ExpDesc, e: Expr, base: nat, bad: set<nat>)
    requires Means(w, c, ts, fs, js, p, ins, d, e, base, bad) && (r.k, r.info, r.nval) == (d.k, d.info, d.nval)
    ensures Means(w, c, ts, fs, js, p, ins, r, e, base, bad)
  {
    forall m: Machine, s: Entry | Enters(s, ins)
      ensures Ends(w, c, ts, fs, r, base, m, Eval(w, e, m.regs, m.log), Start(w, Body(c, r), ts + fs, js, p, s, m), bad)
    {
      assert Body(c, r) == Body(c, d);
      assert Ends(w, c, ts, fs, d, base, m, Eval(w, e, m.regs, m.log), Start(w, Body(c, d), ts + fs, js, p, s, m), bad);
    }
  }

  // ---------- Comparisons ----------

  /** Two operands, the second behind the first, are one piece of code. */
  lemma OperandsOk(c0: Code, js0: seq<nat>, loose1: bool, c1: Code, jpc1: int, js1: seq<nat>, d1: ExpDesc,
                   loose: bool, c: Code, jpc: int, js: seq<nat>, d2: ExpDesc, bad: set<nat>)
    requires Ok(c0, js0, loose1, c1, jpc1, js1, d1, [], [], bad) && Ok(c1, js1, loose, c, jpc, js, d2, [], [], bad) &&
        (loose1 ==> loose)
    ensures Ok(c0, js0, loose, c, jpc, js, d2, [], [], bad)
  {
    EmptyList(c1);
    EmptyList(c);
    NoJumps();
    OkIsOpen(c0, js0, loose1, c1, jpc1, js1, d1, [], [], bad);
    assert CondOk(c0, js0, loose1, c1, jpc1, js1, NO_JUMP, [], bad);
    PutTogether(c0, js0, loose1, c1, jpc1, js1, NO_JUMP, [], bad, loose, c, jpc, js, d2, [], [], bad);
    OkOpen(c1, js1, loose, c, jpc, js, d2, [], [], bad);
    TogetherShape(c0, js0, c1, js1, c, jpc, js, d2, [], [], loose, NO_JUMP, [], bad);
    assert (var none: seq<nat> := []; none + none == none);
    assert S([]) + S([]) + S([]) == S([]) + S([]);
    OkMake(c0, js0, loose, c, jpc, js, d2, [], [], bad);
  }

  /** `condjump`: the comparison and its jump. */
  lemma ComparedOk(c0: Code, js0: seq<nat>, loose: bool, c: Code, jpc: int, js: seq<nat>, d: ExpDesc, c2: Code,
      r: ExpDesc, bad: set<nat>)
    requires Ok(c0, js0, loose, c, jpc, js, d, [], [], bad) && Settled(d) && |c2| == |c| + 2 &&
        Flushed(c, S(js), c2[..|c|])
    requires c2[|c|].Relop? && c2[|c| + 1] == Jmp(NO_JUMP) && r.k.VJmp? && r.info == |c| + 1 && r.t == r.f == NO_JUMP
    ensures Ok(c0, js0, loose, c2, NO_JUMP, [], r, [], [], bad)
  {
    EmptyList(c2);
    NoJumps();
    OkParts(c0, js0, loose, c, jpc, js, d, [], [], bad);
    OkOpen(c0, js0, loose, c, jpc, js, d, [], [], bad);
    BranchGrew(c, js, c2);
    FlushGrew(c, S(js), c2[..|c|], []);
    assert c2[..|c|] + [] == c2[..|c|];
    GrewWhole(c, S(js), c2[..|c|]);
    FrameFlush(c0, S(js0), loose, c, S([]) + S([]), S(js), c2);
    hide Frame;
    assert Shape(c2, S([]), S([]), S([]), |c0|, S(js0), r);
    OkMake(c0, js0, loose, c2, NO_JUMP, [], r, [], [], bad);
  }

  lemma ComparedAll(k1: seq<Value>, k: seq<Value>, c0: Code, js0: seq<nat>, c1: Code, jpc1: int, js1: seq<nat>,
      d1: ExpDesc, c: Code, jpc: int, js: seq<nat>,
                    d2: ExpDesc, op: CompOp, c2: Code, r: ExpDesc, a: Expr, b: Expr, base: nat, base2: nat,
                        base3: nat, n: nat, bad: set<nat>)
    requires Ok(c0, js0, false, c1, jpc1, js1, d1, [], [], bad) && Ok(c1, js1, false, c, jpc, js, d2, [], [], bad) &&
        k1 <= k
    requires All(k1, c1, [], [], js1, c0, js0, d1, a, base, bad) && All(k, c, [], [], js, c1, js1, d2, b, base2, bad)
    requires IsOperand(d1, base2) && IsOperand(d2, base3) && Scoped(b, n, k1) && n <= base <= base2
    requires |c2| == |c| + 2 && Flushed(c, S(js), c2[..|c|]) && c2[|c|] == RelopFor(op, Operand(d1), Operand(d2)) &&
        r.k.VJmp? && r.info == |c| + 1
    ensures All(k, c2, [], [], [], c0, js0, r, Comp(op, a, b), base, bad)
  {
    EmptyList(c2);
    NoJumps();
    OkOpen(c0, js0, false, c1, jpc1, js1, d1, [], [], bad);
    OkParts(c1, js1, false, c, jpc, js, d2, [], [], bad);
    OkOpen(c1, js1, false, c, jpc, js, d2, [], [], bad);
    FlushGrew(c, S(js), c2[..|c|], []);
    assert c2[..|c|] + [] == c2[..|c|];
    forall w: World | k <= w.consts ensures Means(w, c2, {}, {}, {}, |c0|, S(js0), r, Comp(op, a, b), base, bad) {
      assert k1 <= w.consts;
      assert Means(w, c1, S([]), S([]), S(js1), |c0|, S(js0), d1, a, base, bad);
      assert Means(w, c, S([]), S([]), S(js), |c1|, S(js1), d2, b, base2, bad);
      hide Means, Frame, Shape, Ok, IsList, All, Pending, Grew, Flushed;
      Comparison(w, c1, S(js1), d1, a, base, |c0|, S(js0), c, S(js), d2, b, base2, base3, n, k1, c2, r, op, bad);
    }
  }
}
