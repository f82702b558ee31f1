/**
 The last steps of `exp2reg`: labels that produce booleans, and lists that get their targets.
 */
module LuaResult {
  import opened LuaMachine
  import opened LuaRuns
  import opened LuaMeaning
  import opened LuaGen
  import opened LuaValue
  import opened LuaLists

  lemma OneSet(j: nat, s: seq<nat>)
    ensures S([j] + s) == S(s) + {j} && S(s + [j]) == S(s) + {j}
  {
  }

  /** Code was only added; the sets of waiting jumps may have grown by new ones. */
  lemma AddedOk(c0: Code, js0: seq<nat>, loose: bool, c: Code, jpc: int, js: seq<nat>, d: ExpDesc, ts: seq<nat>,
      fs: seq<nat>,
                c': Code, l: int, js': seq<nat>, bad: set<nat>)
    requires Ok(c0, js0, loose, c, jpc, js, d, ts, fs, bad) && Settled(d) && |c'| > |c| && c'[..|c|] == c && Whole(c')
    requires IsList(c', l, js') && (S(js') == S(js) + {|c|}) && c'[|c|].Jmp?
    ensures Ok(c0, js0, loose, c', l, js', d, ts, fs, bad)
  {
    OkParts(c0, js0, loose, c, jpc, js, d, ts, fs, bad);
    ListJumps(c, d.t, ts);
    ListJumps(c, d.f, fs);
    assert forall i :: 0 <= i < |c| ==> c'[i] == c'[..|c|][i];
    ListKept(c, c', d.t, ts);
    ListKept(c, c', d.f, fs);
    assert c'[..|c0|] == c[..|c0|];
    AddedSets(c, c', S(ts) + S(fs), S(js), S(js0), bad);
    assert S(ts) + S(fs) + S(js') == S(ts) + S(fs) + S(js) + {|c|};
    FrameEdit(c0, S(js0), loose, c, S(ts) + S(fs), S(js), c', S(ts) + S(fs), S(js'));
  }

  lemma AddedSets(c: Code, c': Code, open: set<nat>, js: set<nat>, ins: set<nat>, bad: set<nat>)
    requires Pending(c, open + js) && |c'| > |c| && c'[..|c|] == c && c'[|c|].Jmp? && Whole(c)
    ensures Pending(c', open + js + {|c|}) && (Valueless(c, open, ins, bad) ==> Valueless(c', open, ins, bad))
    ensures forall j :: j in open + js ==> j < |c|
  {
    forall j | 0 <= j <= |c| ensures IsSet(c', j) == IsSet(c, j) && (IsSet(c, j) ==> c'[j - 1] == c[j - 1]) {
      if j > 0 { assert c'[j - 1] == c'[..|c|][j - 1]; }
    }
    forall j | j in open + js ensures c'[j].Jmp? {
      assert c'[j] == c'[..|c|][j];
    }
    forall j | j in open && j in ins && j !in bad && Valueless(c, open, ins, bad) ensures !IsSet(c', j) {
      assert j in open + js;
    }
  }

  /** The value is in its register, the labels are behind a jump over them. */
  lemma HeldDone(k: seq<Value>, c0: Code, js0: seq<nat>, loose: bool, c: Code, jpc: int, js: seq<nat>, d: ExpDesc,
      ts: seq<nat>, fs: seq<nat>,
                 c': Code, l: int, e: Expr, base: nat, bad: set<nat>)
    requires Ok(c0, js0, loose, c, jpc, js, d, ts, fs, bad) && d.k.VNonReloc? && |c'| == |c| + 3 && c'[..|c|] == c &&
        c'[|c|].Jmp?
    requires IsList(c', l, [|c|] + js) && Labels(c', d.info)
    ensures Ok(c0, js0, loose, c', l, [|c|] + js, d, ts, fs, bad)
    ensures All(k, c, ts, fs, js, c0, js0, d, e, base, bad) ==> All(k, c', ts, fs, [|c|] + js, c0, js0, d, e, base, bad)
  {
    OneSet(|c|, js);
    AddedOk(c0, js0, loose, c, jpc, js, d, ts, fs, c', l, [|c|] + js, bad);
    if All(k, c, ts, fs, js, c0, js0, d, e, base, bad) {
      forall w: World | k <= w.consts ensures Means(w, c', S(ts), S(fs), S([|c|] + js), |c0|, S(js0), d, e, base, bad) {
        assert Means(w, c, S(ts), S(fs), S(js), |c0|, S(js0), d, e, base, bad);
        Held(w, c, c', S(ts), S(fs), S(js), |c0|, S(js0), d, e, base, bad);
      }
    }
  }

  /** A comparison, followed by the labels. */
  lemma JumpDone(k: seq<Value>, c0: Code, js0: seq<nat>, loose: bool, c: Code, jpc: int, d: ExpDesc, ts: seq<nat>,
      fs: seq<nat>,
                 c': Code, r: ExpDesc, e: Expr, base: nat, bad: set<nat>)
    requires Ok(c0, js0, loose, c, jpc, [], d, ts, fs, bad) && d.k.VJmp? && d.info < |c| && |c'| == |c| + 2
    requires SameButJumps(c, c'[..|c|], S(ts)) && Labels(c', r.info) && r.k.VNonReloc? && base <= r.info && r.f == d.f
    requires IsList(c', r.t, ts + [d.info])
    ensures Ok(c0, js0, loose, c', NO_JUMP, [], r, ts + [d.info], fs, bad)
    ensures All(k, c, ts, fs, [], c0, js0, d, e, base, bad) ==>
        All(k, c', ts + [d.info], fs, [], c0, js0, r, e, base, bad)
  {
    OneSet(d.info, ts);
    EmptyList(c');
    JumpOk(c0, js0, loose, c, jpc, d, ts, fs, c', r, bad);
    if All(k, c, ts, fs, [], c0, js0, d, e, base, bad) {
      forall w: World | k <= w.consts
          ensures Means(w, c', S(ts + [d.info]), S(fs), S([]), |c0|, S(js0), r, e, base, bad) {
        assert Means(w, c, S(ts), S(fs), S([]), |c0|, S(js0), d, e, base, bad);
        JumpLabels(w, c, c', S(ts), S(fs), |c0|, S(js0), d, r, e, base, r.info, bad);
      }
    }
  }

  lemma JumpOk(c0: Code, js0: seq<nat>, loose: bool, c: Code, jpc: int, d: ExpDesc, ts: seq<nat>, fs: seq<nat>,
      c': Code, r: ExpDesc, bad: set<nat>)
    requires Ok(c0, js0, loose, c, jpc, [], d, ts, fs, bad) && d.k.VJmp? && d.info < |c| && |c'| == |c| + 2
    requires SameButJumps(c, c'[..|c|], S(ts)) && Labels(c', r.info) && r.k.VNonReloc? && r.f == d.f
    requires IsList(c', r.t, ts + [d.info])
    ensures Ok(c0, js0, loose, c', NO_JUMP, [], r, ts + [d.info], fs, bad)
  {
    OneSet(d.info, ts);
    EmptyList(c');
    OkOpen(c0, js0, loose, c, jpc, [], d, ts, fs, bad);
    JumpFacts(c, c', S(ts), S(fs), |c0|, S(js0), d, r.info);
    hide Ok, Frame, IsList, Labels, SameButJumps, Shape, Pending, Valueless, Whole, S;
    JumpOthers(c, c', S(ts), d.f, fs);
    JumpFrame(c0, S(js0), loose, c, c', S(ts), S(fs), d.info);
    JumpSets(c, c', S(ts), S(fs), S(js0), d.info, bad);
    JumpShape(c, c', S(ts), S(fs), |c0|, S(js0), d, r);
    OkMake(c0, js0, loose, c', NO_JUMP, [], r, ts + [d.info], fs, bad);
  }

  lemma JumpFacts(c: Code, c': Code, ts: set<nat>, fs: set<nat>, p: nat, ins: set<nat>, d: ExpDesc, reg: nat)
    requires Shape(c, ts, fs, {}, p, ins, d) && d.k.VJmp? && Labels(c', reg)
    ensures fs !! ts && p < d.info && Pending(c, ts + fs) && 0 < d.info < |c| && c[d.info].Jmp? && c[d.info - 1].Relop?
    ensures d.info !in ins && Whole(c')
  {
    assert ts + fs + {} == ts + fs;
  }

  lemma JumpShape(c: Code, c': Code, ts: set<nat>, fs: set<nat>, p: nat, ins: set<nat>, d: ExpDesc, r: ExpDesc)
    requires Shape(c, ts, fs, {}, p, ins, d) && d.k.VJmp? && r.k.VNonReloc? && |c'| >= |c| && Whole(c')
    requires Pending(c', ts + {d.info} + fs)
    ensures Shape(c', ts + {d.info}, fs, {}, p, ins, r)
  {
    assert ts + {d.info} + fs + {} == ts + {d.info} + fs;
  }

  lemma JumpOthers(c: Code, c': Code, ts: set<nat>, l: int, fs: seq<nat>)
    requires |c'| == |c| + 2 && SameButJumps(c, c'[..|c|], ts) && IsList(c, l, fs) && S(fs) !! ts
    ensures IsList(c', l, fs)
  {
    var x := c'[..|c|];
    ListJumps(c, l, fs);
    forall j | j in fs ensures c'[j] == c[j] {
      assert j in S(fs) && x[j] == c'[j];
    }
    ListKept(c, c', l, fs);
  }

  lemma JumpFrame(c0: Code, js0: set<nat>, loose: bool, c: Code, c': Code, ts: set<nat>, fs: set<nat>, j: nat)
    requires Frame(c0, js0, c, ts + fs, {}, loose) && |c'| == |c| + 2 && SameButJumps(c, c'[..|c|], ts) && j >= |c0|
    ensures Frame(c0, js0, c', ts + {j} + fs, {}, loose)
  {
    var x := c'[..|c|];
    assert SameButJumps(c, x, ts + fs + {});
    FrameLink(c0, js0, loose, c, ts + fs, {}, x, ts + fs, {});
    assert c'[..|c0|] == x[..|c0|];
    FrameEdit(c0, js0, loose, x, ts + fs, {}, c', ts + {j} + fs, {});
  }

  lemma JumpSets(c: Code, c': Code, ts: set<nat>, fs: set<nat>, ins: set<nat>, j: nat, bad: set<nat>)
    requires Pending(c, ts + fs) && |c'| == |c| + 2 && SameButJumps(c, c'[..|c|], ts) && 0 < j < |c| && c[j].Jmp? &&
        c[j - 1].Relop?
    ensures Pending(c', ts + {j} + fs) && (Valueless(c, ts + fs, ins, bad) && j !in ins ==>
        Valueless(c', ts + {j} + fs, ins, bad))
  {
    var x := c'[..|c|];
    forall i | 0 <= i < |c| ensures IsSet(c', i) == IsSet(c, i) && (IsSet(c, i) ==> c'[i - 1] == c[i - 1]) &&
        (c'[i].Jmp? <==> c[i].Jmp?) {
      assert x[i] == c'[i];
      if i > 0 { assert x[i - 1] == c'[i - 1]; }
    }
    forall i | i in ts + {j} + fs ensures i < |c| && c[i].Jmp? && (IsSet(c, i) ==> c[i - 1].a == NO_REG) {
      if i != j { assert i in ts + fs; }
    }
    forall i | i in ts + {j} + fs && i in ins && i !in bad && Valueless(c, ts + fs, ins, bad) && j !in ins
        ensures !IsSet(c', i) {
      assert i in ts + fs;
    }
  }

  // ---------- Lists get their targets ----------

  lemma PatchedList(c: Code, c': Code, xs: set<nat>, vtarget: int, reg: nat, load: int, l: int, s: seq<nat>)
    requires Patched(c, c', xs, vtarget, reg, load) && IsList(c, l, s) && S(s) !! xs
    ensures IsList(c', l, s)
  {
    ListJumps(c, l, s);
    forall j | j in s ensures j < |c'| && c'[j] == c[j] {
      assert j in S(s) && c'[j] == c'[j];
    }
    ListKept(c, c', l, s);
  }

  lemma PatchedSets(c: Code, c': Code, xs: set<nat>, vtarget: int, reg: nat, load: int, ys: set<nat>, js: set<nat>,
      ins: set<nat>, bad: set<nat>)
    requires Patched(c, c', xs, vtarget, reg, load) && Pending(c, xs + ys + js) && xs !! ys && xs !! js
    ensures Pending(c', ys + js) && (Valueless(c, xs + ys, ins, bad) ==> Valueless(c', ys, ins, bad))
    ensures Whole(c) ==> Whole(c')
  {
    forall j | j in ys + js ensures j < |c| && c[j].Jmp? && c'[j].Jmp? && IsSet(c', j) == IsSet(c, j) &&
        (IsSet(c, j) ==> c'[j - 1] == c[j - 1]) {
      assert j in xs + ys + js && c'[j] == c'[j];
      if j > 0 {
        assert c'[j - 1] == c'[j - 1];
        if j - 1 in xs { assert j - 1 in xs + ys + js; }
      }
    }
    forall j | j in ys && j in ins && j !in bad && Valueless(c, xs + ys, ins, bad) ensures !IsSet(c', j) {
      assert j in xs + ys && j in ys + js;
    }
    if |c| > 0 {
      assert c'[|c| - 1] == c'[|c| - 1];
      if |c| - 1 in xs { assert |c| - 1 in xs + ys + js; }
    }
  }

  /** The bookkeeping of `patchlistaux` for the true or the false list. */
  lemma PatchedOk(c0: Code, js0: seq<nat>, loose: bool, c: Code, jpc: int, js: seq<nat>, d: ExpDesc, ts: seq<nat>,
      fs: seq<nat>,
                  c': Code, truth: bool, load: int, r: ExpDesc, bad: set<nat>)
    requires Ok(c0, js0, loose, c, jpc, js, d, ts, fs, bad) && d.k.VNonReloc?
    requires Patched(c, c', S(if truth then ts else fs), |c|, d.info, load)
    requires (forall j :: j in S(if truth then ts else fs) && !IsSet(c, j) ==> load >= |c0|)
    requires r == if truth then d.(t := NO_JUMP) else d.(f := NO_JUMP)
    requires loose || S(if truth then ts else fs) !! bad
    ensures Ok(c0, js0, loose, c', jpc, js, r, if truth then [] else ts, if truth then fs else [], bad)
  {
    var xs, ys := if truth then ts else fs, if truth then fs else ts;
    var ts', fs' := if truth then [] else ts, if truth then fs else [];
    OkParts(c0, js0, loose, c, jpc, js, d, ts, fs, bad);
    EmptyList(c');
    assert S(ts) + S(fs) == S(xs) + S(ys) && S(ts') + S(fs') == S(ys) && (S(ts) + S(fs)) - S(xs) == S(ys);
    PatchedList(c, c', S(xs), |c|, d.info, load, if truth then d.f else d.t, ys);
    PatchedList(c, c', S(xs), |c|, d.info, load, jpc, js);
    PatchedSets(c, c', S(xs), |c|, d.info, load, S(ys), S(js), S(js0), bad);
    PatchedValueless(c, S(xs), S(ys), S(js0), loose, |c0|, bad);
    FramePatch(c0, S(js0), loose, c, S(ts) + S(fs), S(js), c', S(xs), |c|, d.info, load);
    hide Frame, IsList, Patched;
    assert Shape(c', S(ts'), S(fs'), S(js), |c0|, S(js0), r);
  }

  lemma PatchedValueless(c: Code, xs: set<nat>, ys: set<nat>, ins: set<nat>, loose: bool, p: nat, bad: set<nat>)
    requires (loose || Valueless(c, xs + ys, ins, bad)) && forall j :: j in xs + ys ==> j >= p || j in ins
    requires loose || xs !! bad
    ensures loose || forall j :: j in xs && j < p ==> !IsSet(c, j)
  {
    assert forall j :: j in xs ==> j in xs + ys;
  }

  /** The values that the jumps of one list bring are in the register now. */
  lemma PatchedAll(k: seq<Value>, c0: Code, js0: seq<nat>, loose: bool, c: Code, jpc: int, js: seq<nat>, d: ExpDesc,
      ts: seq<nat>, fs: seq<nat>,
                   c': Code, truth: bool, load: int, r: ExpDesc, e: Expr, base: nat, bad: set<nat>)
    requires Ok(c0, js0, loose, c, jpc, js, d, ts, fs, bad) && d.k.VNonReloc? && base <= d.info < NO_REG
    requires Patched(c, c', S(if truth then ts else fs), |c|, d.info, load)
    requires (forall j :: j in S(if truth then ts else fs) && !IsSet(c, j) ==> load >= |c0|)
    requires load >= 0 ==> Labels(c, d.info) && load == (if truth then |c| - 1 else |c| - 2) && forall j ::
        j in S(ts) + S(fs) ==> j < |c| - 2
    requires r.k.VNonReloc? && r.info == d.info && All(k, c, ts, fs, js, c0, js0, d, e, base, bad)
    requires S(if truth then ts else fs) !! bad
    ensures All(k, c', if truth then [] else ts, if truth then fs else [], js, c0, js0, r, e, base, bad)
  {
    var xs := if truth then ts else fs;
    OkParts(c0, js0, loose, c, jpc, js, d, ts, fs, bad);
    PatchedPatchable(c, S(ts), S(fs), S(js), S(xs), |c0|, load);
    if load >= 0 {
      PatchedLabels(c, c', S(xs), d.info, load);
    }
    assert S([]) == {};
    forall w: World | k <= w.consts
      ensures Means(w, c', S(if truth then [] else ts), S(if truth then fs else []), S(js), |c0|, S(js0), r, e, base,
          bad)
    {
      assert Means(w, c, S(ts), S(fs), S(js), |c0|, S(js0), d, e, base, bad);
      if load >= 0 {
        forall open: set<nat>, m: Machine ensures Run(w, c', open, S(js), load, m) ==
            Done(SetReg(m, d.info, Bool(truth))) {
          RunLabels(w, c', open, S(js), d.info, m);
        }
      }
      hide Labels, Run, Patched, Patchable, Ok;
      PatchMeans(w, c, c', S(ts), S(fs), S(js), |c0|, S(js0), d, e, base, truth, load, bad);
      Renamed(w, c', S(if truth then [] else ts), S(if truth then fs else []), S(js), |c0|, S(js0), d, r, e, base, bad);
    }
  }

  lemma PatchedPatchable(c: Code, ts: set<nat>, fs: set<nat>, js: set<nat>, xs: set<nat>, p: nat, load: int)
    requires Pending(c, ts + fs + js) && (ts + fs) !! js && (xs == ts || xs == fs)
    requires forall j :: j in xs && !IsSet(c, j) ==> load >= p
    requires load >= 0 ==> |c| - 2 <= load < |c| && forall j :: j in ts + fs ==> j < |c| - 2
    ensures Patchable(c, ts + fs, js, xs, |c|, load) && forall j :: j in ts + fs ==> j < |c| && c[j].Jmp?
  {
    forall j | j in ts + fs ensures j < |c| && c[j].Jmp? && (IsSet(c, j) ==> c[j - 1].a == NO_REG) {
      assert j in ts + fs + js;
    }
    assert xs <= ts + fs;
  }

  lemma PatchedLabels(c: Code, c': Code, xs: set<nat>, reg: nat, load: int)
    requires Patched(c, c', xs, |c|, reg, load) && Labels(c, reg) && forall j :: j in xs ==> j < |c| - 2
    ensures Labels(c', reg)
  {
    assert c'[|c| - 2] == c'[|c| - 2] && c'[|c| - 1] == c'[|c| - 1];
  }

  /** Either the labels are there, behind all open jumps, or every jump brings its value. */
  ghost predicate LabelsOr(c: Code, p: nat, xs: set<nat>, reg: nat, pf: int, pt: int) {
    if pf == NO_JUMP then pt == NO_JUMP && forall j :: j in xs ==> IsSet(c, j)
    else Labels(c, reg) && pf == |c| - 2 && pt == |c| - 1 && p <= pf && forall j :: j in xs ==> j < pf
  }

  lemma PatchedLabelsOr(c: Code, c': Code, ts: set<nat>, fs: set<nat>, p: nat, reg: nat, pf: int, pt: int)
    requires LabelsOr(c, p, ts + fs, reg, pf, pt) && Patched(c, c', fs, |c|, reg, pf) && ts !! fs
    requires forall j :: j in ts + fs ==> j < |c| && c[j].Jmp?
    ensures LabelsOr(c', p, ts + {}, reg, pf, pt)
  {
    if pf == NO_JUMP {
      forall j | j in ts ensures IsSet(c', j) {
        assert j in ts + fs && IsSet(c, j) && c'[j - 1] == c'[j - 1];
        assert j - 1 !in ts + fs;
      }
    } else {
      assert forall j :: j in fs ==> j in ts + fs;
      PatchedLabels(c, c', fs, reg, pf);
    }
  }

  lemma LabelsOrUse(c: Code, p: nat, xs: set<nat>, ys: set<nat>, reg: nat, pf: int, pt: int)
    requires LabelsOr(c, p, xs + ys, reg, pf, pt)
    ensures forall j :: j in xs && !IsSet(c, j) ==> pf >= p && pt >= p
    ensures pf >= 0 || pt >= 0 ==> Labels(c, reg) && pf == |c| - 2 && pt == |c| - 1 && forall j :: j in xs + ys ==>
        j < |c| - 2
    ensures (exists j :: j in xs && !IsSet(c, j)) ==> pf != NO_JUMP && pt != NO_JUMP
  {
    forall j | j in xs && !IsSet(c, j) ensures pf >= p && pt >= p {
      assert j in xs + ys;
    }
  }
}
