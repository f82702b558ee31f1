/**
 Lists of jumps threaded through the code, and descriptors together with their lists.
 */
module LuaLists {
  import opened LuaMachine
  import opened LuaRuns
  import opened LuaMeaning
  import opened LuaGen
  import opened LuaValue

  ghost function S(s: seq<nat>): set<nat> {
    set x | x in s
  }

  /** `getjump`: the next jump of the list that goes through the jump at `pc`. */
  function GetJump(c: Code, pc: nat): int
    requires pc < |c| && c[pc].Jmp?
  {
    if c[pc].sbx == NO_JUMP then NO_JUMP else pc + 1 + c[pc].sbx
  }

  /** The list that starts at `l` consists of the jumps `s`, all different. */
  ghost predicate IsList(c: Code, l: int, s: seq<nat>)
    decreases |s|
  {
    if s == [] then l == NO_JUMP
    else l == s[0] && s[0] < |c| && c[s[0]].Jmp? && s[0] !in s[1..] && IsList(c, GetJump(c, s[0]), s[1..])
  }

  lemma {:induction false} ListJumps(c: Code, l: int, s: seq<nat>)
    requires IsList(c, l, s)
    ensures forall j :: j in s ==> j < |c| && c[j].Jmp?
    decreases |s|
  {
    if s != [] {
      ListJumps(c, GetJump(c, s[0]), s[1..]);
    }
  }

  /** A list does not care about code that is not its own. */
  lemma {:induction false} ListKept(c: Code, c': Code, l: int, s: seq<nat>)
    requires IsList(c, l, s) && forall j :: j in s ==> j < |c| && j < |c'| && c'[j] == c[j]
    ensures IsList(c', l, s)
    decreases |s|
  {
    if s != [] {
      assert forall j :: j in s[1..] ==> j in s;
      ListKept(c, c', GetJump(c, s[0]), s[1..]);
    }
  }

  /** Linking the last element of one list to another list concatenates them. */
  lemma {:induction false} ListConcat(c: Code, c': Code, l1: int, s1: seq<nat>, l2: int, s2: seq<nat>)
    requires IsList(c, l1, s1) && s1 != [] && IsList(c, l2, s2) && s2 != [] && S(s1) !! S(s2)
    requires s1[|s1| - 1] < |c| && c' == c[s1[|s1| - 1] := Jmp(l2 - (s1[|s1| - 1] + 1))]
    ensures IsList(c', l1, s1 + s2)
    decreases |s1|
  {
    var last := s1[|s1| - 1];
    assert last in S(s1) && l2 in S(s2);
    if |s1| == 1 {
      assert s1 + s2 == [last] + s2 && (s1 + s2)[1..] == s2;
      forall j | j in s2 ensures j < |c| && c'[j] == c[j] {
        ListJumps(c, l2, s2);
        assert j in S(s2);
      }
      ListKept(c, c', l2, s2);
      assert GetJump(c', last) == l2;
      assert last !in s2;
    } else {
      assert s1[0] != last by { assert s1[1..][|s1| - 2] == last; }
      assert S(s1[1..]) <= S(s1);
      ListConcat(c, c', GetJump(c, s1[0]), s1[1..], l2, s2);
      assert (s1 + s2)[1..] == s1[1..] + s2;
      assert s1[0] in S(s1);
    }
  }

  lemma PatchSet(c: Code, c1: Code, p: set<nat>, vtarget: int, reg: nat, dtarget: int, j: nat)
    requires Patched(c, c1, p, vtarget, reg, dtarget) && j !in p && j < |c| && forall i :: i in p ==>
        i < |c| && c[i].Jmp?
    ensures IsSet(c1, j) == IsSet(c, j) && (IsSet(c, j) ==> c1[j - 1] == c[j - 1])
  {
    if j > 0 {
      assert c1[j - 1] == c1[j - 1];
    }
  }

  lemma PatchNext(c: Code, c1: Code, c2: Code, p: set<nat>, vtarget: int, reg: nat, dtarget: int, j: nat)
    requires Patched(c, c1, p, vtarget, reg, dtarget) && j !in p && j < |c| && c[j].Jmp?
    requires IsSet(c1, j) == IsSet(c, j) && (IsSet(c, j) ==> c1[j - 1] == c[j - 1])
    requires var t := if IsSet(c1, j) then c1[j - 1 := PatchTest(c1[j - 1], reg)] else c1;
             c2 == t[j := Jmp((if IsSet(c, j) then vtarget else dtarget) - (j + 1))]
    ensures Patched(c, c2, p + {j}, vtarget, reg, dtarget)
  {
    forall i | 0 <= i < |c|
      ensures if i in p + {j} then c2[i].Jmp? && i + 1 + c2[i].sbx == (if IsSet(c, i) then vtarget else dtarget)
         else if i + 1 in p + {j} then c2[i] == PatchTest(c[i], reg)
         else c2[i] == c[i]
    {
      assert c1[i] == c1[i];
      if i == j - 1 && i !in p {
        assert c[i].TestSet? <==> IsSet(c, j);
      }
    }
  }

  lemma NextSame(c: Code, c1: Code, p: set<nat>, vtarget: int, reg: nat, dtarget: int, j: nat)
    requires Patched(c, c1, p, vtarget, reg, dtarget) && j !in p && j < |c| && c[j].Jmp?
    ensures c1[j] == c[j]
  {
  }

  /** Patching one jump leaves the rest of its list alone. */
  lemma RestKept(c: Code, c1: Code, c2: Code, p: set<nat>, vtarget: int, reg: nat, dtarget: int, j: nat, next: int,
      rest: seq<nat>)
    requires Patched(c, c1, p, vtarget, reg, dtarget) && Patched(c, c2, p + {j}, vtarget, reg, dtarget)
    requires j < |c| && c[j].Jmp? && next == GetJump(c, j) && IsList(c, next, rest) && j !in rest
    requires forall i :: i in rest ==> i !in p
    ensures IsList(c2, next, rest)
  {
    ListJumps(c, next, rest);
    forall i | i in rest ensures i < |c2| && c2[i] == c[i] {
      assert c2[i] == c2[i];
    }
    ListKept(c, c2, next, rest);
  }

  /** The rest of a list, and the part before it. */
  lemma {:induction false} ListPart(c: Code, l: int, s: seq<nat>, i: nat)
    requires IsList(c, l, s) && i < |s|
    ensures s[i] < |c| && c[s[i]].Jmp? && s[i] !in s[..i] && s[i] !in s[i + 1..]
    ensures IsList(c, s[i], s[i..])
    ensures forall j :: j in s[..i] ==> j < |c| && c[j].Jmp? && j !in s[i..]
    decreases i
  {
    if i == 0 {
      assert s[0..] == s;
    } else {
      ListPart(c, GetJump(c, s[0]), s[1..], i - 1);
      assert s[1..][i - 1..] == s[i..] && s[1..][..i - 1] == s[1..i] && s[..i] == [s[0]] + s[1..i] &&
          s[1..][i..] == s[i + 1..];
      assert forall x :: x in s[i..] ==> x in s[1..];
    }
  }

  /** The tests of the jumps `p` have lost their registers. */
  ghost predicate Dropped(c: Code, c': Code, p: set<nat>) {
    |c'| == |c| && forall i {:trigger c'[i]} :: 0 <= i < |c| ==>
        c'[i] == if i + 1 in p then PatchTest(c[i], NO_REG) else c[i]
  }

  lemma DropNext(c: Code, c1: Code, c2: Code, p: set<nat>, j: nat)
    requires Dropped(c, c1, p) && j < |c| && j !in p
    requires c2 == if IsSet(c1, j) then c1[j - 1 := PatchTest(c1[j - 1], NO_REG)] else c1
    ensures Dropped(c, c2, p + {j})
  {
    forall i | 0 <= i < |c| ensures c2[i] == if i + 1 in p + {j} then PatchTest(c[i], NO_REG) else c[i] {
      assert c1[i] == c1[i];
    }
  }

  lemma DropList(c: Code, c': Code, l: nat, s: seq<nat>)
    requires IsList(c, l, s) && s != []
    requires c' == c || (l > 0 && IsSet(c, l) && c' == c[l - 1 := PatchTest(c[l - 1], NO_REG)])
    ensures IsList(c', l, s)
  {
    ListJumps(c, l, s);
    ListKept(c, c', l, s);
  }

  // ---------- Descriptors with their lists ----------

  /** The jumps `bad` have joined a list that stands for a constant although they bring a value.  None of them waits
      for the current position. */
  ghost predicate BadOk(c: Code, js: set<nat>, bad: set<nat>) {
    (forall j {:trigger j in bad} :: j in bad ==> j < |c|) && js !! bad
  }

  /** A descriptor of code that starts where `c0` ended, when the jumps `js0` waited there; `loose` if a
      misplaced value was asked for. */
  ghost predicate Ok(c0: Code, js0: seq<nat>, loose: bool, c: Code, jpc: int, js: seq<nat>, d: ExpDesc, ts: seq<nat>,
      fs: seq<nat>, bad: set<nat>) {
    && Shape(c, S(ts), S(fs), S(js), |c0|, S(js0), d)
    && IsList(c, d.t, ts) && IsList(c, d.f, fs) && IsList(c, jpc, js)
    && Frame(c0, S(js0), c, S(ts) + S(fs), S(js), loose)
    && (loose || Valueless(c, S(ts) + S(fs), S(js0), bad))
    && Pending(c0, S(js0)) && Whole(c0)
    && BadOk(c, S(js), bad) && (d.k.VJmp? ==> d.info !in bad)
  }

  /** The descriptor stands for `e` in every world that has the constants `k`. */
  ghost predicate All(k: seq<Value>, c: Code, ts: seq<nat>, fs: seq<nat>, js: seq<nat>, c0: Code, js0: seq<nat>,
      d: ExpDesc, e: Expr, base: nat, bad: set<nat>) {
    forall w: World {:trigger Means(w, c, S(ts), S(fs), S(js), |c0|, S(js0), d, e, base, bad)} :: k <= w.consts ==>
      Means(w, c, S(ts), S(fs), S(js), |c0|, S(js0), d, e, base, bad)
  }

  lemma FrameFlush(c0: Code, js0: set<nat>, loose: bool, c: Code, open: set<nat>, js: set<nat>, c': Code)
    requires Frame(c0, js0, c, open, js, loose) && Pending(c0, js0) && Whole(c0) && Grew(c, js, c', {}) &&
        Pending(c, open + js) && open !! js
    ensures Frame(c0, js0, c', open, {}, loose)
  {
    forall i | 0 <= i < |c0|
      ensures FrameAt(c0, js0, c', open, {}, i, loose)
    {
      assert c[i] == c[i] && c'[i] == c'[i];
      if i in js0 {
        assert c[i].Jmp?;
        if i !in js && i + 1 in js {
          assert SameTest(c[i], c'[i]);
        }
      } else if i in js || i in open {
        assert false;
      } else if i + 1 in js {
        assert SameTest(c[i], c'[i]);
        if i + 1 < |c0| {
          assert i + 1 in open + js;
        }
      }
    }
  }

  /** Open jumps were relinked, or moved to another list. */
  lemma FrameLink(c0: Code, js0: set<nat>, loose: bool, c: Code, open: set<nat>, js: set<nat>, c': Code,
      open': set<nat>, js': set<nat>)
    requires Frame(c0, js0, c, open, js, loose) && SameButJumps(c, c', open + js) && open' + js' == open + js
    ensures Frame(c0, js0, c', open', js', loose)
  {
    forall i | 0 <= i < |c0|
      ensures FrameAt(c0, js0, c', open', js', i, loose)
    {
      assert c[i] == c[i] && c'[i] == c'[i];
      assert i in open' + js' <==> i in open + js;
    }
    forall i | i in open' + js' && i < |c0| ensures i in js0 {
      assert i in open + js;
    }
  }

  /** Only code behind the starting point changed. */
  lemma FrameEdit(c0: Code, js0: set<nat>, loose: bool, c: Code, open: set<nat>, js: set<nat>, c': Code,
      open': set<nat>, js': set<nat>)
    requires Frame(c0, js0, c, open, js, loose) && |c'| >= |c0| && c'[..|c0|] == c[..|c0|]
    requires forall i :: i < |c0| ==> (i in open' + js' <==> i in open + js)
    ensures Frame(c0, js0, c', open', js', loose)
  {
    forall i | 0 <= i < |c0|
      ensures FrameAt(c0, js0, c', open', js', i, loose)
    {
      assert c'[i] == c'[..|c0|][i] && c[i] == c[..|c0|][i];
      assert i in open' + js' <==> i in open + js;
    }
    forall i | i in open' + js' && i < |c0| ensures i in js0 {
      assert i in open + js;
    }
  }

  /** A list got its targets, all behind the starting point. */
  lemma FramePatch(c0: Code, js0: set<nat>, loose: bool, c: Code, open: set<nat>, js: set<nat>, c': Code,
      xs: set<nat>, vtarget: int, reg: nat, dtarget: int)
    requires Frame(c0, js0, c, open, js, loose) && Patched(c, c', xs, vtarget, reg, dtarget) && xs <= open &&
        Pending(c, open + js) && Whole(c0)
    requires loose || forall j :: j in xs && j < |c0| && IsSet(c, j) ==> reg == NO_REG
    requires vtarget >= |c0| && forall j :: j in xs && !IsSet(c, j) ==> dtarget >= |c0|
    requires Pending(c0, js0)
    ensures Frame(c0, js0, c', open - xs, js, loose)
  {
    forall i | 0 <= i < |c0|
      ensures FrameAt(c0, js0, c', open - xs, js, i, loose)
    {
      assert c[i] == c[i] && c'[i] == c'[i];
      if i in xs {
        assert i in open + js && i in js0;
      } else if i + 1 in xs {
        assert i + 1 in open + js;
        if i in js0 {
          assert c[i].Jmp?;
        } else if i + 1 < |c0| {
          assert i + 1 in js0;
        }
      }
    }
    forall i | i in (open - xs) + js && i < |c0| ensures i in js0 {
      assert i in open + js;
    }
  }

  // ---------- Steps on descriptors with their lists ----------

  /** The code after `luaK_code`. */
  ghost predicate Emitted(c: Code, js: seq<nat>, c': Code, i: Instr) {
    |c'| == |c| + 1 && Flushed(c, S(js), c'[..|c|]) && c'[|c|] == i
  }

  lemma EmittedGrew(c: Code, js: seq<nat>, c': Code, i: Instr)
    requires Emitted(c, js, c', i) && Pending(c, S(js))
    ensures Grew(c, S(js), c', {}) && Grew(c, S(js), c'[..|c|], {})
  {
    FlushGrew(c, S(js), c'[..|c|], [i]);
    FlushGrew(c, S(js), c'[..|c|], []);
    assert c' == c'[..|c|] + [i] && c'[..|c|] + [] == c'[..|c|];
  }

  lemma GrewList(c: Code, js: set<nat>, c': Code, l: int, s: seq<nat>)
    requires Grew(c, js, c', {}) && IsList(c, l, s) && S(s) !! js
    ensures IsList(c', l, s)
  {
    ListJumps(c, l, s);
    forall j | j in s ensures j < |c'| && c'[j] == c[j] {
      assert j in S(s) && c'[j] == c'[j];
    }
    ListKept(c, c', l, s);
  }

  lemma GrewPending(c: Code, js: set<nat>, c': Code, xs: set<nat>)
    requires Grew(c, js, c', {}) && Pending(c, xs + js) && xs !! js
    ensures Pending(c', xs)
  {
    forall j | j in xs ensures j < |c'| && c'[j].Jmp? && (IsSet(c', j) ==> c'[j - 1].a == NO_REG) {
      assert j in xs + js && j < |c| && c[j].Jmp? && c'[j] == c'[j];
      if j > 0 {
        assert c'[j - 1] == c'[j - 1];
        if j - 1 in js { assert j - 1 in xs + js; }
      }
    }
  }

  lemma OkParts(c0: Code, js0: seq<nat>, loose: bool, c: Code, jpc: int, js: seq<nat>, d: ExpDesc, ts: seq<nat>,
      fs: seq<nat>, bad: set<nat>)
    requires Ok(c0, js0, loose, c, jpc, js, d, ts, fs, bad)
    ensures Pending(c, S(js)) && Pending(c, S(ts) + S(fs) + S(js)) && Pending(c, S(ts) + S(fs)) &&
        (S(ts) + S(fs)) !! S(js)
    ensures S(ts) !! S(fs) && S(ts) !! S(js) && S(fs) !! S(js) && |c0| <= |c| && IsList(c, jpc, js)
  {
  }

  lemma OkOpen(c0: Code, js0: seq<nat>, loose: bool, c: Code, jpc: int, js: seq<nat>, d: ExpDesc, ts: seq<nat>,
      fs: seq<nat>, bad: set<nat>)
    requires Ok(c0, js0, loose, c, jpc, js, d, ts, fs, bad)
    ensures Shape(c, S(ts), S(fs), S(js), |c0|, S(js0), d) && IsList(c, d.t, ts) && IsList(c, d.f, fs) &&
        IsList(c, jpc, js)
    ensures Frame(c0, S(js0), c, S(ts) + S(fs), S(js), loose) && (loose || Valueless(c, S(ts) + S(fs), S(js0), bad))
    ensures Pending(c0, S(js0)) && Whole(c0)
  {
  }

  lemma OkMake(c0: Code, js0: seq<nat>, loose: bool, c: Code, jpc: int, js: seq<nat>, d: ExpDesc, ts: seq<nat>,
      fs: seq<nat>, bad: set<nat>)
    requires Shape(c, S(ts), S(fs), S(js), |c0|, S(js0), d) && IsList(c, d.t, ts) && IsList(c, d.f, fs) &&
        IsList(c, jpc, js)
    requires Frame(c0, S(js0), c, S(ts) + S(fs), S(js), loose) && (loose || Valueless(c, S(ts) + S(fs), S(js0), bad))
    requires Pending(c0, S(js0)) && Whole(c0) && BadOk(c, S(js), bad) && (d.k.VJmp? ==> d.info !in bad)
    ensures Ok(c0, js0, loose, c, jpc, js, d, ts, fs, bad)
  {
  }

  /** Only the bad jumps in its own lists matter for a descriptor. */
  lemma OkWeaken(c0: Code, js0: seq<nat>, loose: bool, c: Code, jpc: int, js: seq<nat>, d: ExpDesc, ts: seq<nat>,
      fs: seq<nat>, bad: set<nat>, bad': set<nat>)
    requires Ok(c0, js0, loose, c, jpc, js, d, ts, fs, bad) && BadOk(c, S(js), bad') && (d.k.VJmp? ==> d.info !in bad')
    requires forall j :: j in S(ts) + S(fs) && j in bad ==> j in bad'
    ensures Ok(c0, js0, loose, c, jpc, js, d, ts, fs, bad')
  {
    hide Shape, Frame, IsList;
  }

  lemma AllWeaken(k: seq<Value>, c: Code, ts: seq<nat>, fs: seq<nat>, js: seq<nat>, c0: Code, js0: seq<nat>,
      d: ExpDesc, e: Expr, base: nat, bad: set<nat>, bad': set<nat>)
    requires All(k, c, ts, fs, js, c0, js0, d, e, base, bad)
    requires forall j :: j in S(ts) + S(fs) && j in bad ==> j in bad'
    ensures All(k, c, ts, fs, js, c0, js0, d, e, base, bad')
  {
    forall w: World | k <= w.consts ensures Means(w, c, S(ts), S(fs), S(js), |c0|, S(js0), d, e, base, bad') {
      assert Means(w, c, S(ts), S(fs), S(js), |c0|, S(js0), d, e, base, bad);
      MeansWeaken(w, c, S(ts), S(fs), S(js), |c0|, S(js0), d, e, base, bad, bad');
    }
  }

  lemma MeansWeaken(w: World, c: Code, ts: set<nat>, fs: set<nat>, js: set<nat>, p: nat, ins: set<nat>, d: ExpDesc,
      e: Expr, base: nat, bad: set<nat>, bad': set<nat>)
    requires Means(w, c, ts, fs, js, p, ins, d, e, base, bad) && forall j :: j in ts + fs && j in bad ==> j in bad'
    ensures Means(w, c, ts, fs, js, p, ins, d, e, base, bad')
  {
    hide Eval, Start, Body, ValueOf;
    forall m: Machine, s: Entry | Enters(s, ins)
      ensures Ends(w, c, ts, fs, d, base, m, Eval(w, e, m.regs, m.log), Start(w, Body(c, d), ts + fs, js, p, s, m),
          bad')
    {
      assert Ends(w, c, ts, fs, d, base, m, Eval(w, e, m.regs, m.log), Start(w, Body(c, d), ts + fs, js, p, s, m), bad);
    }
  }

  /** After one more instruction, nothing waits for the end of the code. */
  lemma EmitOk(c0: Code, js0: seq<nat>, loose: bool, c: Code, jpc: int, js: seq<nat>, d: ExpDesc, ts: seq<nat>,
      fs: seq<nat>, c': Code, i: Instr, d': ExpDesc, bad: set<nat>)
    requires Ok(c0, js0, loose, c, jpc, js, d, ts, fs, bad) && Settled(d) && Emitted(c, js, c', i) && IsPlain(i)
    requires d'.t == d.t && d'.f == d.f && (Settled(d') || (d'.k.VRelocable? && d'.info == |c| && Relocatable(i)))
    ensures Ok(c0, js0, loose, c', NO_JUMP, [], d', ts, fs, bad)
  {
    OkParts(c0, js0, loose, c, jpc, js, d, ts, fs, bad);
    EmittedGrew(c, js, c', i);
    hide Frame, Emitted;
    GrewList(c, S(js), c', d.t, ts);
    GrewList(c, S(js), c', d.f, fs);
    GrewPending(c, S(js), c', S(ts) + S(fs));
    FrameFlush(c0, S(js0), loose, c, S(ts) + S(fs), S(js), c');
    EmptyList(c');
    assert S(ts) + S(fs) + {} == S(ts) + S(fs);
    GrewWhole(c, S(js), c'[..|c|]);
    EmitShape(c0, js0, c, js, d, ts, fs, c', i, d');
  }

  lemma EmptyList(c: Code)
    ensures IsList(c, NO_JUMP, []) && S([]) == {}
  {
  }

  lemma GrewWhole(c: Code, js: set<nat>, c': Code)
    requires Grew(c, js, c', {}) && |c'| == |c| && Whole(c) && Pending(c, js)
    ensures Whole(c')
  {
    if |c| > 0 {
      assert c'[|c| - 1] == c'[|c| - 1];
      if |c| - 1 in js {
        assert c[|c| - 1].Jmp?;
      }
    }
  }

  lemma EmitShape(c0: Code, js0: seq<nat>, c: Code, js: seq<nat>, d: ExpDesc, ts: seq<nat>, fs: seq<nat>, c': Code,
      i: Instr, d': ExpDesc)
    requires Shape(c, S(ts), S(fs), S(js), |c0|, S(js0), d) && Settled(d) && |c'| == |c| + 1 && c'[|c|] == i &&
        IsPlain(i)
    requires Settled(d') || (d'.k.VRelocable? && d'.info == |c| && Relocatable(i))
    requires Pending(c', S(ts) + S(fs)) && Whole(c'[..|c|])
    ensures Shape(c', S(ts), S(fs), S([]), |c0|, S(js0), d')
  {
    assert S(ts) + S(fs) + S([]) == S(ts) + S(fs);
  }

  /** A value was loaded into a register. */
  lemma EmitAll(k: seq<Value>, k': seq<Value>, c0: Code, js0: seq<nat>, loose: bool, c: Code, jpc: int, js: seq<nat>,
      d: ExpDesc, ts: seq<nat>, fs: seq<nat>,
                c': Code, i: Instr, d': ExpDesc, e: Expr, base: nat, bad: set<nat>)
    requires Ok(c0, js0, loose, c, jpc, js, d, ts, fs, bad) && Settled(d) && Emitted(c, js, c', i) && IsPlain(i) &&
        Settled(d')
    requires All(k, c, ts, fs, js, c0, js0, d, e, base, bad) && k <= k'
    requires forall w: World, m: Machine :: k' <= w.consts ==>
               Keeps(m, Plain(w, i, m), base) && ValueOf(w, c', d', Plain(w, i, m)) == ValueOf(w, c, d, m)
    ensures All(k', c', ts, fs, [], c0, js0, d', e, base, bad)
  {
    OkParts(c0, js0, loose, c, jpc, js, d, ts, fs, bad);
    EmittedGrew(c, js, c', i);
    assert c' == c'[..|c|] + [i];
    EmptyList(c');
    forall w: World | k' <= w.consts ensures Means(w, c', S(ts), S(fs), S([]), |c0|, S(js0), d', e, base, bad) {
      assert k <= w.consts;
      hide Plain, ValueOf, Keeps, Emitted;
      assert Means(w, c, S(ts), S(fs), S(js), |c0|, S(js0), d, e, base, bad);
      Loaded(w, c, c'[..|c|], i, S(ts), S(fs), S(js), |c0|, S(js0), d, d', e, base, bad);
    }
  }

  /** A relocatable instruction was started. */
  lemma ReopenAll(k: seq<Value>, c0: Code, js0: seq<nat>, loose: bool, c: Code, jpc: int, js: seq<nat>, d: ExpDesc,
      ts: seq<nat>, fs: seq<nat>,
                  c': Code, i: Instr, d': ExpDesc, e: Expr, base: nat, bad: set<nat>)
    requires Ok(c0, js0, loose, c, jpc, js, d, ts, fs, bad) && Settled(d) && Emitted(c, js, c', i)
    requires All(k, c, ts, fs, js, c0, js0, d, e, base, bad) && d'.k.VRelocable? && d'.info == |c|
    requires forall w: World, m: Machine :: k <= w.consts ==> ValueOf(w, c', d', m) == ValueOf(w, c, d, m)
    ensures All(k, c', ts, fs, [], c0, js0, d', e, base, bad)
  {
    OkParts(c0, js0, loose, c, jpc, js, d, ts, fs, bad);
    EmittedGrew(c, js, c', i);
    EmptyList(c');
    forall w: World | k <= w.consts ensures Means(w, c', S(ts), S(fs), S([]), |c0|, S(js0), d', e, base, bad) {
      hide ValueOf, Emitted;
      assert Means(w, c, S(ts), S(fs), S(js), |c0|, S(js0), d, e, base, bad);
      Reopened(w, c, c', S(ts), S(fs), S(js), |c0|, S(js0), d, d', e, base, bad);
    }
  }

  /** The same value under another name, perhaps with more constants. */
  lemma RenameAll(k: seq<Value>, k': seq<Value>, c: Code, ts: seq<nat>, fs: seq<nat>, js: seq<nat>, c0: Code,
      js0: seq<nat>,
                  d: ExpDesc, d': ExpDesc, e: Expr, base: nat, bad: set<nat>)
    requires All(k, c, ts, fs, js, c0, js0, d, e, base, bad) && Settled(d) && Settled(d') && k <= k'
    requires forall w: World, m: Machine :: k' <= w.consts ==> ValueOf(w, c, d', m) == ValueOf(w, c, d, m)
    ensures All(k', c, ts, fs, js, c0, js0, d', e, base, bad)
  {
    forall w: World | k' <= w.consts ensures Means(w, c, S(ts), S(fs), S(js), |c0|, S(js0), d', e, base, bad) {
      assert Means(w, c, S(ts), S(fs), S(js), |c0|, S(js0), d, e, base, bad);
      Renamed(w, c, S(ts), S(fs), S(js), |c0|, S(js0), d, d', e, base, bad);
    }
  }

  lemma Renamed(w: World, c: Code, ts: set<nat>, fs: set<nat>, js: set<nat>, p: nat, ins: set<nat>, d: ExpDesc,
      d': ExpDesc, e: Expr, base: nat, bad: set<nat>)
    requires Means(w, c, ts, fs, js, p, ins, d, e, base, bad) && Settled(d) && Settled(d')
    requires forall m: Machine :: ValueOf(w, c, d', m) == ValueOf(w, c, d, m)
    ensures Means(w, c, ts, fs, js, p, ins, d', e, base, bad)
  {
    forall m: Machine, s: Entry | Enters(s, ins)
      ensures Ends(w, c, ts, fs, d', base, m, Eval(w, e, m.regs, m.log), Start(w, c, ts + fs, js, p, s, m), bad)
    {
      assert Ends(w, c, ts, fs, d, base, m, Eval(w, e, m.regs, m.log), Start(w, Body(c, d), ts + fs, js, p, s, m), bad);
    }
  }

  /** SETARG_A of a relocatable instruction */
  lemma RelocateOk(c0: Code, js0: seq<nat>, loose: bool, c: Code, jpc: int, d: ExpDesc, ts: seq<nat>, fs: seq<nat>,
      d': ExpDesc, reg: nat, bad: set<nat>)
    requires Ok(c0, js0, loose, c, jpc, [], d, ts, fs, bad) && d.k.VRelocable? && d' == d.(k := VNonReloc, info := reg)
    ensures d.info < |c| && Ok(c0, js0, loose, c[d.info := WithA(c[d.info], reg)], jpc, [], d', ts, fs, bad)
  {
    var c' := c[d.info := WithA(c[d.info], reg)];
    ListJumps(c, d.t, ts);
    ListJumps(c, d.f, fs);
    ListKept(c, c', d.t, ts);
    ListKept(c, c', d.f, fs);
    assert c'[..|c0|] == c[..|c0|];
    FrameEdit(c0, S(js0), loose, c, S(ts) + S(fs), S([]), c', S(ts) + S(fs), S([]));
    assert Pending(c', S(ts) + S(fs) + S([])) by {
      forall j | j in S(ts) + S(fs) + S([]) ensures j < |c'| && c'[j].Jmp? && (IsSet(c', j) ==> c'[j - 1].a == NO_REG) {
        assert c[j].Jmp?;
      }
    }
  }

  lemma RelocateAll(k: seq<Value>, c0: Code, js0: seq<nat>, loose: bool, c: Code, jpc: int, d: ExpDesc, ts: seq<nat>,
      fs: seq<nat>, d': ExpDesc, reg: nat, e: Expr, base: nat, bad: set<nat>)
    requires Ok(c0, js0, loose, c, jpc, [], d, ts, fs, bad) && d.k.VRelocable? &&
        d' == d.(k := VNonReloc, info := reg) &&
        reg >= base
    requires All(k, c, ts, fs, [], c0, js0, d, e, base, bad)
    ensures d.info < |c| && All(k, c[d.info := WithA(c[d.info], reg)], ts, fs, [], c0, js0, d', e, base, bad)
  {
    EmptyList(c);
    forall w: World | k <= w.consts
      ensures Means(w, c[d.info := WithA(c[d.info], reg)], S(ts), S(fs), S([]), |c0|, S(js0), d', e, base, bad)
    {
      assert Means(w, c, S(ts), S(fs), S([]), |c0|, S(js0), d, e, base, bad);
      Relocated(w, c, S(ts), S(fs), |c0|, S(js0), d, d', e, base, reg, bad);
    }
  }
}
