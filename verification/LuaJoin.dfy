/**
 Lists of jumps are joined: conditions are completed, operands follow each other, and `not` exchanges
 the lists.
 */
module LuaJoin {
  import opened LuaMachine
  import opened LuaRuns
  import opened LuaMeaning
  import opened LuaGen
  import opened LuaValue
  import opened LuaLists
  import opened LuaBranch

  lemma SameList(c: Code, c': Code, pending: set<nat>, l: int, s: seq<nat>)
    requires SameButJumps(c, c', pending) && IsList(c, l, s) && S(s) !! pending
    ensures IsList(c', l, s)
  {
    ListJumps(c, l, s);
    forall j | j in s ensures j < |c'| && c'[j] == c[j] {
      assert j in S(s) && c'[j] == c'[j];
    }
    ListKept(c, c', l, s);
  }

  lemma SameTwice(c: Code, c1: Code, c2: Code, xs: set<nat>, ys: set<nat>, all: set<nat>)
    requires SameButJumps(c, c1, xs) && SameButJumps(c1, c2, ys) && xs <= all && ys <= all
    ensures SameButJumps(c, c2, all)
  {
    forall i | 0 <= i < |c| ensures c2[i] == c[i] || (c[i].Jmp? && c2[i].Jmp? && i in all) {
      assert c1[i] == c1[i] && c2[i] == c2[i];
    }
  }

  lemma SamePending(c: Code, c': Code, all: set<nat>, open: set<nat>, ins: set<nat>, bad: set<nat>)
    requires SameButJumps(c, c', all) && Pending(c, all) && open <= all
    ensures Pending(c', all) && (Valueless(c, open, ins, bad) ==> Valueless(c', open, ins, bad)) &&
        (Whole(c) ==> Whole(c'))
  {
    forall j | j in all ensures j < |c'| && c'[j].Jmp? && IsSet(c', j) == IsSet(c, j) &&
        (IsSet(c', j) ==> c'[j - 1].a == NO_REG) {
      assert c'[j] == c'[j];
      SameExit(c, c', all, j);
    }
    assert |c| > 0 ==> c'[|c| - 1] == c'[|c| - 1];
  }

  /** Open jumps were relinked, and some of them now wait for the end. */
  lemma OpenLink(c0: Code, js0: seq<nat>, loose: bool, c: Code, jpc: int, js: seq<nat>, open: set<nat>, c': Code,
      jpc': int, js': seq<nat>, open': set<nat>, bad: set<nat>)
    requires OpenOk(c0, js0, loose, c, jpc, js, open, bad) && SameButJumps(c, c', open + S(js)) &&
        open' + S(js') == open + S(js)
    requires open' <= open && open' !! S(js') && IsList(c', jpc', js')
    ensures OpenOk(c0, js0, loose, c', jpc', js', open', bad - S(js'))
  {
    SamePending(c, c', open + S(js), open, S(js0), bad);
    FrameLink(c0, S(js0), loose, c, open, S(js), c', open', S(js'));
    assert loose || Valueless(c', open', S(js0), bad - S(js'));
  }

  // ---------- The end of `luaK_goiftrue` and `luaK_goiffalse` ----------

  lemma JoinReady(c0: Code, js0: seq<nat>, loose: bool, c: Code, jpc: int, js: seq<nat>, t: int, ts: seq<nat>, f: int,
      fs: seq<nat>, pc: int, ps: seq<nat>, bad: set<nat>)
    requires Branching(c0, js0, loose, c, jpc, js, t, ts, f, fs, pc, ps, bad)
    ensures IsList(c, t, ts) && IsList(c, f, fs) && IsList(c, pc, ps) && IsList(c, jpc, js)
    ensures S(ts) !! S(ps) && S(fs) !! S(ps) && S(ts) !! S(js) && S(fs) !! S(js) && S(ts) !! S(fs) && S(ps) !! S(js)
  {
  }

  /** One list has been joined with the jumps of the value, the other goes to the current position. */
  lemma LandedOk(c0: Code, js0: seq<nat>, loose: bool, c: Code, jpc: int, js: seq<nat>, t: int, ts: seq<nat>, f: int,
      fs: seq<nat>, pc: int, ps: seq<nat>,
                 truth: bool, c1: Code, l: int, c2: Code, jpc': int, bad: set<nat>)
    requires Branching(c0, js0, loose, c, jpc, js, t, ts, f, fs, pc, ps, bad)
    requires SameButJumps(c, c1, S(if truth then ts else fs)) && IsList(c1, l, (if truth then ts else fs) + ps)
    requires SameButJumps(c1, c2, S(js)) && IsList(c2, jpc', js + if truth then fs else ts)
    ensures var go := js + if truth then fs else ts;
            CondOk(c0, js0, loose, c2, jpc', go, l, (if truth then ts else fs) + ps, bad - S(go))
    ensures SameButJumps(c, c2, S(ts) + S(fs) + S(ps) + S(js))
  {
    var stay, go := if truth then ts else fs, if truth then fs else ts;
    SumSets(stay, ps);
    SumSets(js, go);
    JoinReady(c0, js0, loose, c, jpc, js, t, ts, f, fs, pc, ps, bad);
    SameTwice(c, c1, c2, S(stay), S(js), S(ts) + S(fs) + S(ps) + S(js));
    SameList(c1, c2, S(js), l, stay + ps);
    hide IsList;
    OpenLink(c0, js0, loose, c, jpc, js, S(ts) + S(fs) + S(ps), c2, jpc', js + go, S(stay + ps), bad);
  }

  lemma SumSets(s: seq<nat>, t: seq<nat>)
    ensures S(s + t) == S(s) + S(t)
  {
  }

  lemma LandedAll(k: seq<Value>, c0: Code, js0: seq<nat>, c: Code, js: seq<nat>, ts: seq<nat>, fs: seq<nat>,
      ps: seq<nat>, truth: bool, c2: Code, e: Expr, base: nat, bad: set<nat>)
    requires AllLeave(k, c, ts, fs, ps, js, c0, js0, e, base, truth, bad) &&
        SameButJumps(c, c2, S(ts) + S(fs) + S(ps) + S(js))
    requires S(ts) !! S(ps) && S(fs) !! S(ps) && S(ts) !! S(fs) && Pending(c, S(ts) + S(fs) + S(ps))
    ensures var xs, go := S((if truth then ts else fs) + ps), js + if truth then fs else ts;
            AllTests(k, c2, When(truth, xs), When(!truth, xs), go, c0, js0, e, base, truth, bad)
  {
    var stay, go := if truth then ts else fs, if truth then fs else ts;
    SumSets(stay, ps);
    SumSets(js, go);
    var ts', fs' := S(ts) + When(truth, S(ps)), S(fs) + When(!truth, S(ps));
    assert ts' + fs' + S(js) == S(ts) + S(fs) + S(ps) + S(js) && ts' + fs' == S(ts) + S(fs) + S(ps);
    assert if truth then ts' == S(stay + ps) && S(js) + fs' == S(js + go)
           else fs' == S(stay + ps) && S(js) + ts' == S(js + go);
    forall w: World | k <= w.consts
      ensures Tests(w, c2, When(truth, S(stay + ps)), When(!truth, S(stay + ps)), S(js + go), |c0|, S(js0), e, base,
          truth, bad)
    {
      assert Tests(w, c, ts', fs', S(js), |c0|, S(js0), e, base, truth, bad);
      hide Tests, AllLeave, AllTests;
      Land(w, c, c2, ts', fs', S(js), |c0|, S(js0), e, base, truth, bad);
    }
  }

  // ---------- `not` ----------

  /** `c1` with `d1` computes the negation of what `c` with `d` computes; the open jumps are the same. */
  ghost predicate Negator(k: seq<Value>, c: Code, d: ExpDesc, open: set<nat>, js: seq<nat>, c1: Code, d1: ExpDesc,
      js1: seq<nat>) {
    && |Body(c1, d1)| == |Body(c, d)| && Continues(Body(c, d), open, S(js), Body(c1, d1), open, S(js1))
    && (forall w: World, m: Machine {:trigger ValueOf(w, c1, d1, m)} :: k <= w.consts ==>
        Negates(ValueOf(w, c, d, m), ValueOf(w, c1, d1, m)))
  }

  lemma DroppedAt(c: Code, c': Code, xs: set<nat>, i: nat)
    requires Dropped(c, c', xs) && i < |c|
    ensures c'[i] == c[i] || (i + 1 in xs && c[i].TestSet? && c'[i] == Test(c[i].b, c[i].want))
  {
    assert c'[i] == c'[i];
  }

  lemma DropTwice(c: Code, c1: Code, c2: Code, xs: set<nat>, ys: set<nat>)
    requires Dropped(c, c1, xs) && Dropped(c1, c2, ys)
    ensures Dropped(c, c2, xs + ys)
  {
    forall i | 0 <= i < |c| ensures c2[i] == if i + 1 in xs + ys then PatchTest(c[i], NO_REG) else c[i] {
      assert c1[i] == c1[i] && c2[i] == c2[i];
    }
  }

  lemma DroppedLists(c: Code, c': Code, xs: set<nat>, l: int, s: seq<nat>)
    requires Dropped(c, c', xs) && IsList(c, l, s)
    ensures IsList(c', l, s)
  {
    ListJumps(c, l, s);
    forall j | j in s ensures j < |c'| && c'[j] == c[j] {
      DroppedAt(c, c', xs, j);
    }
    ListKept(c, c', l, s);
  }

  lemma DroppedPending(c: Code, c': Code, xs: set<nat>, all: set<nat>)
    requires Dropped(c, c', xs) && Pending(c, all) && xs <= all
    ensures Pending(c', all) && (forall j :: j in xs ==> !IsSet(c', j)) && (Whole(c) ==> Whole(c'))
  {
    forall j | j in all ensures j < |c'| && c'[j].Jmp? && (IsSet(c', j) ==> c'[j - 1].a == NO_REG) &&
        (j in xs ==> !IsSet(c', j)) {
      DroppedAt(c, c', xs, j);
      if j > 0 { DroppedAt(c, c', xs, j - 1); assert c'[j - 1] == c'[j - 1]; }
    }
    if |c| > 0 { DroppedAt(c, c', xs, |c| - 1); }
  }

  lemma DroppedFrame(c0: Code, js0: set<nat>, loose: bool, c: Code, open: set<nat>, js: set<nat>, c': Code)
    requires Frame(c0, js0, c, open, js, loose) && Dropped(c, c', open) && Pending(c0, js0) && Pending(c, open) &&
        Whole(c0)
    ensures Frame(c0, js0, c', open, js, loose)
  {
    forall i | 0 <= i < |c0| ensures FrameAt(c0, js0, c', open, js, i, loose) {
      assert c[i] == c[i];
      DroppedAt(c, c', open, i);
      if c'[i] != c[i] {
        assert i + 1 in open && c[i].TestSet? && IsSet(c, i + 1) && c[i].a == NO_REG;
        if i + 1 < |c0| {
          assert i + 1 in js0;
        }
      }
    }
  }

  /** `codenot` after the value itself has been negated: the lists have changed places. */
  lemma DroppedOk(c0: Code, js0: seq<nat>, loose: bool, c: Code, jpc: int, js: seq<nat>, d: ExpDesc, ts: seq<nat>,
      fs: seq<nat>, c': Code, r: ExpDesc, bad: set<nat>)
    requires Ok(c0, js0, loose, c, jpc, js, d, ts, fs, bad) && Dropped(c, c', S(fs) + S(ts)) &&
        r == d.(t := d.f, f := d.t)
    ensures Ok(c0, js0, loose, c', jpc, js, r, fs, ts, bad)
  {
    var xs := S(fs) + S(ts);
    OkParts(c0, js0, loose, c, jpc, js, d, ts, fs, bad);
    OkOpen(c0, js0, loose, c, jpc, js, d, ts, fs, bad);
    assert S(ts) + S(fs) == xs;
    DroppedLists(c, c', xs, d.t, ts);
    DroppedLists(c, c', xs, d.f, fs);
    DroppedLists(c, c', xs, jpc, js);
    DroppedPending(c, c', xs, xs + S(js));
    DroppedFrame(c0, S(js0), loose, c, xs, S(js), c');
    DroppedShape(c, S(ts), S(fs), S(js), |c0|, S(js0), d, c', r);
    hide Ok, Frame, Shape, IsList, Dropped;
    OkMake(c0, js0, loose, c', jpc, js, r, fs, ts, bad);
  }

  lemma DroppedShape(c: Code, ts: set<nat>, fs: set<nat>, js: set<nat>, p: nat, ins: set<nat>, d: ExpDesc, c': Code,
      r: ExpDesc)
    requires Shape(c, ts, fs, js, p, ins, d) && Dropped(c, c', fs + ts) && r == d.(t := d.f, f := d.t)
    requires Pending(c', fs + ts + js) && Whole(c')
    ensures Shape(c', fs, ts, js, p, ins, r)
  {
    assert Pending(c, ts + fs) by { assert forall j :: j in ts + fs ==> j in ts + fs + js; }
    DroppedInfo(c, c', fs + ts, d);
    assert fs + ts == ts + fs;
  }

  /** What completes a value is no TESTSET. */
  lemma DroppedInfo(c: Code, c': Code, xs: set<nat>, d: ExpDesc)
    requires Dropped(c, c', xs)
    ensures d.k.VRelocable? && d.info < |c| && Relocatable(c[d.info]) ==> c'[d.info] == c[d.info]
    ensures d.k.VJmp? && 0 < d.info < |c| && c[d.info - 1].Relop? ==> c'[d.info - 1] == c[d.info - 1]
    ensures d.k.VJmp? && 0 < d.info < |c| && c[d.info].Jmp? ==> c'[d.info] == c[d.info]
    ensures Whole(Body(c, d)) ==> Whole(Body(c', d))
  {
    if d.info < |c| { DroppedAt(c, c', xs, d.info); }
    if 0 < d.info <= |c| { DroppedAt(c, c', xs, d.info - 1); }
    if 1 < d.info <= |c| + 1 { DroppedAt(c, c', xs, d.info - 2); }
    if |c| > 0 { DroppedAt(c, c', xs, |c| - 1); }
  }

  lemma DropContinues(b: Code, open: set<nat>, here: set<nat>, b1: Code, here1: set<nat>, b2: Code)
    requires Continues(b, open, here, b1, open, here1) && |b1| == |b| && Dropped(b1, b2, open)
    requires forall j :: j in open && IsSet(b1, j) && j <= |b1| ==> b1[j - 1].a == NO_REG
    ensures Continues(b, open, here, b2, open, here1)
  {
    forall i | 0 <= i < |b|
      ensures if b[i].Jmp? then
           && b2[i].Jmp? && (i in open <==> i in open)
           && (i !in open && i in here ==> if i in here1 then |b2| == |b| else i + 1 + b2[i].sbx == |b|)
           && (i !in open && i !in here ==> b2[i] == b[i] && i !in here1)
         else SameTest(b[i], b2[i])
    {
      assert b1[i] == b1[i];
      DroppedAt(b1, b2, open, i);
      if b2[i] != b1[i] {
        assert IsSet(b1, i + 1);
      }
    }
  }

  lemma DropNegator(k: seq<Value>, c: Code, d: ExpDesc, open: set<nat>, js: seq<nat>, c1: Code, d1: ExpDesc,
      js1: seq<nat>, c2: Code, r: ExpDesc)
    requires Negator(k, c, d, open, js, c1, d1, js1) && Dropped(c1, c2, open) && Pending(c1, open)
    requires d1.k.VRelocable? ==> d1.info < |c1| && Relocatable(c1[d1.info])
    requires d1.k.VJmp? ==> 0 < d1.info < |c1| && c1[d1.info - 1].Relop?
    requires r == d1.(t := d1.f, f := d1.t)
    ensures Negator(k, c, d, open, js, c2, r, js1)
  {
    DroppedInfo(c1, c2, open, d1);
    var b1, b2 := Body(c1, d1), Body(c2, r);
    assert Dropped(b1, b2, open) by {
      forall i | 0 <= i < |b1| ensures b2[i] == if i + 1 in open then PatchTest(b1[i], NO_REG) else b1[i] {
        assert c2[i] == c2[i];
      }
    }
    forall j | j in open && IsSet(b1, j) && j <= |b1| ensures b1[j - 1].a == NO_REG {
      assert IsSet(c1, j);
    }
    DropContinues(Body(c, d), open, S(js), b1, S(js1), b2);
    forall w: World, m: Machine | k <= w.consts ensures Negates(ValueOf(w, c, d, m), ValueOf(w, c2, r, m)) {
      assert ValueOf(w, c2, r, m) == ValueOf(w, c1, d1, m);
    }
  }

  lemma NegatedAll(k: seq<Value>, c0: Code, js0: seq<nat>, loose: bool, c: Code, jpc: int, js: seq<nat>, d: ExpDesc,
      ts: seq<nat>, fs: seq<nat>,
                   c': Code, js': seq<nat>, r: ExpDesc, e: Expr, base: nat, bad: set<nat>)
    requires Ok(c0, js0, loose, c, jpc, js, d, ts, fs, bad) && All(k, c, ts, fs, js, c0, js0, d, e, base, bad)
    requires Negator(k, c, d, S(ts) + S(fs), js, c', r, js') && forall j :: j in S(ts) + S(fs) ==> !IsSet(c', j)
    ensures All(k, c', fs, ts, js', c0, js0, r, Not(e), base, {})
  {
    forall w: World | k <= w.consts ensures Means(w, c', S(fs), S(ts), S(js'), |c0|, S(js0), r, Not(e), base, {}) {
      assert Means(w, c, S(ts), S(fs), S(js), |c0|, S(js0), d, e, base, bad);
      assert forall m: Machine :: Negates(ValueOf(w, c, d, m), ValueOf(w, c', r, m));
      hide Means, Continues, ValueOf, Body;
      Negated(w, c, c', S(ts), S(fs), S(js), S(js'), |c0|, S(js0), d, r, e, base, bad);
    }
  }
}
