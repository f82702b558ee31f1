/**
 The part of `lcode.c` that compiles `and`, `or`, `not` and comparisons.  Jumps that have no target
 yet are linked through the code itself.
 */
module LuaFuncState {
  import opened LuaMachine
  import opened LuaRuns
  import opened LuaMeaning
  import opened LuaGen
  import opened LuaValue
  import opened LuaLists
  import opened LuaResult
  import opened LuaBranch
  import opened LuaJoin
  import opened LuaSequence
  import opened LuaTraits

  const MAXARG_sBx: int := 131071
  const MAXSTACK: nat := 250

  class FuncState {
    var code: Code
    var jpc: int
    var lasttarget: int
    var freereg: nat
    const nactvar: nat
    var k: seq<Value>
    var error: bool             // a syntax error was raised; the rest does not matter

    ghost var js: seq<nat>      // the list of jumps to the current position
    ghost var mixed: bool       // a misplaced value was asked for
    ghost var bad: set<nat>     // jumps with a value that have joined a list which stands for a constant

    /** `open_func`, for a function with `n` parameters whose constants so far are `consts`. */
    constructor (n: nat, consts: seq<Value>)
      requires n < MAXSTACK
      ensures Ready() && !error && !mixed && Room(error, freereg) && code == [] && js == [] &&
          nactvar == freereg == n && k == consts
    {
      code, jpc, lasttarget, freereg, nactvar, k, error := [], NO_JUMP, -1, n, n, consts, false;
      js, mixed, bad := [], false, {};
      new;
      EmptyList(code);
    }

    // ---------- Jump lists ----------

    method FixJump(pc: nat, dest: int)
      requires pc < |code| && code[pc].Jmp? && 0 <= dest <= |code|
      modifies this`code, this`error
      ensures code == old(code)[pc := Jmp(dest - (pc + 1))]
      ensures (old(error) ==> error) && (error ==> old(error) || |code| > MAXARG_sBx) && |old(code)| <= |code|
    {
      var offset := dest - (pc + 1);
      if offset > MAXARG_sBx || offset < -MAXARG_sBx {
        error := true;                     // "control structure too long"
      }
      code := code[pc := Jmp(offset)];
    }

    /** `luaK_concat` */
    method Concat(l1: int, l2: int, ghost s1: seq<nat>, ghost s2: seq<nat>) returns (l: int)
      requires IsList(code, l1, s1) && IsList(code, l2, s2) && S(s1) !! S(s2)
      modifies this`code, this`error
      ensures IsList(code, l, s1 + s2) && SameButJumps(old(code), code, S(s1))
      ensures s1 == [] || s2 == [] ==> code == old(code)
      ensures (old(error) ==> error) && (error ==> old(error) || |code| > MAXARG_sBx) && |old(code)| <= |code|
    {
      if l2 == NO_JUMP {
        assert s1 + s2 == s1;
        return l1;
      }
      if l1 == NO_JUMP {
        assert s1 + s2 == s2;
        return l2;
      }
      var list := l1;
      ghost var i := 0;
      var next := GetJump(code, list);
      while next != NO_JUMP
        invariant 0 <= i < |s1| && list == s1[i] && IsList(code, list, s1[i..])
        invariant next == GetJump(code, list)
        decreases |s1| - i
      {
        assert s1[i..][1..] == s1[i + 1..];
        list := next;
        i := i + 1;
        next := GetJump(code, list);
      }
      assert s1[i..][1..] == s1[i + 1..];
      assert i == |s1| - 1;
      ghost var c := code;
      FixJump(list, l2);
      assert list in S(s1);
      ListConcat(c, code, l1, s1, l2, s2);
      l := l1;
    }

    /** `need_value`: some jump of the list does not bring its value along. */
    method NeedValue(list: int, ghost s: seq<nat>) returns (b: bool)
      requires IsList(code, list, s)
      ensures b <==> exists j :: j in s && !IsSet(code, j)
    {
      var l := list;
      ghost var i := 0;
      assert s[0..] == s;
      while l != NO_JUMP
        invariant 0 <= i <= |s| && IsList(code, l, s[i..])
        invariant forall j :: 0 <= j < i ==> IsSet(code, s[j])
        decreases |s| - i
      {
        assert s[i..][1..] == s[i + 1..] && s[i..][0] == s[i];
        if !(l >= 1 && code[l - 1].TestSet?) {
          assert s[i] in s;
          return true;
        }
        l := GetJump(code, l);
        i := i + 1;
      }
      b := false;
    }

    /** `patchtestreg`: give the test of a jump its register, or let it only test. */
    method PatchTestReg(node: nat, reg: nat) returns (set_: bool)
      requires node < |code|
      modifies this`code
      ensures set_ == IsSet(old(code), node)
      ensures code == if set_ then old(code)[node - 1 := PatchTest(old(code)[node - 1], reg)] else old(code)
    {
      if !(node >= 1 && code[node - 1].TestSet?) {
        return false;                      // no TESTSET here
      }
      var i := code[node - 1];
      if reg != NO_REG && reg != i.b {
        code := code[node - 1 := TestSet(reg, i.b, i.want)];
      } else {                             // no register is asked for, or the value is there
        code := code[node - 1 := Test(i.b, i.want)];
      }
      set_ := true;
    }

    /** `patchlistaux` */
    method PatchListAux(list: int, ghost s: seq<nat>, vtarget: int, reg: nat, dtarget: int)
      requires IsList(code, list, s) && 0 <= vtarget <= |code| && NO_JUMP <= dtarget <= |code|
      requires (exists j :: j in s && !IsSet(code, j)) ==> dtarget != NO_JUMP
      modifies this`code, this`error
      ensures Patched(old(code), code, S(s), vtarget, reg, dtarget)
      ensures (old(error) ==> error) && (error ==> old(error) || |code| > MAXARG_sBx) && |old(code)| <= |code|
    {
      ghost var c := code;
      var l := list;
      ghost var i := 0;
      assert s[0..] == s && S(s[..0]) == {};
      hide Patched;
      NonePatched(c, vtarget, reg, dtarget);
      while l != NO_JUMP
        invariant 0 <= i <= |s| && IsList(code, l, s[i..])
        invariant Patched(c, code, S(s[..i]), vtarget, reg, dtarget)
        invariant |code| == |c| && (old(error) ==> error) && (error ==> old(error) || |c| > MAXARG_sBx)
        decreases |s| - i
      {
        l := PatchOne(c, list, s, i, l, vtarget, reg, dtarget);
        i := i + 1;
      }
      assert s[..i] == s;
    }

    /** One jump of the list; the address of the next. */
    method PatchOne(ghost c: Code, ghost list: int, ghost s: seq<nat>, ghost i: nat, l: nat, vtarget: int, reg: nat,
        dtarget: int)
      returns (next: int)
      requires IsList(c, list, s) && i < |s| && IsList(code, l, s[i..])
      requires Patched(c, code, S(s[..i]), vtarget, reg, dtarget)
      requires |code| == |c| && 0 <= vtarget <= |c| && NO_JUMP <= dtarget <= |c| &&
          ((exists j :: j in s && !IsSet(c, j)) ==> dtarget != NO_JUMP)
      modifies this`code, this`error
      ensures Patched(c, code, S(s[..i + 1]), vtarget, reg, dtarget) && IsList(code, next, s[i + 1..]) && |code| == |c|
      ensures (old(error) ==> error) && (error ==> old(error) || |code| > MAXARG_sBx) && |old(code)| <= |code|
    {
      ListPart(c, list, s, i);
      assert s[i..][1..] == s[i + 1..] && s[i..][0] == s[i] == l && s[..i + 1] == s[..i] + [s[i]];
      next := GetJump(code, l);
      ghost var c1 := code;
      NextSame(c, c1, S(s[..i]), vtarget, reg, dtarget, l);
      PatchSet(c, code, S(s[..i]), vtarget, reg, dtarget, l);
      var set_ := PatchTestReg(l, reg);
      if set_ {
        FixJump(l, vtarget);
      } else {
        FixJump(l, dtarget);             // no value on this way
      }
      PatchNext(c, c1, code, S(s[..i]), vtarget, reg, dtarget, l);
      assert S(s[..i + 1]) == S(s[..i]) + {s[i]};
      hide Patched;
      RestKept(c, c1, code, S(s[..i]), vtarget, reg, dtarget, l, next, s[i + 1..]);
    }

    /** `removevalues`: the tests of these jumps only test. */
    method RemoveValues(list: int, ghost s: seq<nat>)
      requires IsList(code, list, s)
      modifies this`code
      ensures Dropped(old(code), code, S(s)) && |code| == |old(code)|
    {
      ghost var c := code;
      var l := list;
      ghost var i := 0;
      assert s[0..] == s && S(s[..0]) == {};
      while l != NO_JUMP
        invariant 0 <= i <= |s| && IsList(code, l, s[i..])
        invariant Dropped(c, code, S(s[..i]))
        decreases |s| - i
      {
        ListPart(c, list, s, i);
        assert s[i..][1..] == s[i + 1..] && s[i..][0] == s[i] == l && s[..i + 1] == s[..i] + [s[i]];
        ghost var c1 := code;
        var _ := PatchTestReg(l, NO_REG);
        DropNext(c, c1, code, S(s[..i]), l);
        assert S(s[..i + 1]) == S(s[..i]) + {s[i]};
        DropList(c1, code, l, s[i..]);
        l := GetJump(code, l);
        i := i + 1;
      }
      assert s[..i] == s;
    }

    // ---------- Emitting code ----------

    /** No jump list is broken, and the jumps to the current position are those of `js`. */
    ghost predicate Ready()
      reads this
    {
      IsList(code, jpc, js) && Pending(code, S(js)) && Whole(code) && nactvar <= freereg && BadOk(code, S(js), bad)
    }

    /** `dischargejpc` */
    method DischargeJpc()
      requires IsList(code, jpc, js)
      modifies this`code, this`error, this`jpc, this`js
      ensures Flushed(old(code), S(old(js)), code) && jpc == NO_JUMP && js == []
      ensures (old(error) ==> error) && (error ==> old(error) || |code| > MAXARG_sBx) && |old(code)| <= |code|
    {
      PatchListAux(jpc, js, |code|, NO_REG, |code|);
      jpc := NO_JUMP;
      js := [];
    }

    /** `luaK_code` */
    method CodeI(i: Instr) returns (pc: nat)
      requires IsList(code, jpc, js)
      modifies this`code, this`error, this`jpc, this`js
      ensures |code| == |old(code)| + 1 && pc == |old(code)| && code[pc] == i
      ensures Flushed(old(code), S(old(js)), code[..pc]) && jpc == NO_JUMP && js == []
      ensures (old(error) ==> error) && (error ==> old(error) || |code| > MAXARG_sBx) && |old(code)| <= |code|
    {
      DischargeJpc();
      pc := |code|;
      code := code + [i];
      assert code[..pc] == code[..pc];
    }

    /** `luaK_jump`: the jumps to the current position are put on hold, behind the new one. */
    method NewJump() returns (j: nat)
      requires IsList(code, jpc, js) && Pending(code, S(js))
      modifies this`code, this`error, this`jpc, this`js
      ensures j == |old(code)| && |code| == j + 1 && code[j].Jmp? && code[..j] == old(code) && jpc == NO_JUMP &&
          js == []
      ensures IsList(code, j, [j] + old(js)) && (old(js) == [] ==> code[j] == Jmp(NO_JUMP))
      ensures (old(error) ==> error) && (error ==> old(error) || |code| > MAXARG_sBx) && |old(code)| <= |code|
    {
      ghost var c, s := code, js;
      var held := jpc;
      jpc, js := NO_JUMP, [];
      NothingFlushed(code);
      j := CodeI(Jmp(NO_JUMP));
      FlushNothing(c, code[..j]);
      ghost var c1 := code;
      forall i | i in s ensures i < |c| && i < |code| && code[i] == c[i] {
        assert i in S(s) && c[..][i] == code[..j][i];
      }
      ListKept(c, code, held, s);
      var l := Concat(j, held, [j], s);
      assert l == j;
      assert code[..j] == c by {
        forall i | 0 <= i < j ensures code[..j][i] == c[i] {
          assert code[i] == c1[i] && c1[i] == c1[..j][i];
        }
      }
    }

    /** `luaK_getlabel` */
    method GetLabel() returns (pc: nat)
      modifies this`lasttarget
      ensures pc == |code| && lasttarget == pc
    {
      lasttarget := |code|;
      pc := |code|;
    }

    /** `luaK_patchtohere` */
    method PatchToHere(list: int, ghost s: seq<nat>)
      requires IsList(code, jpc, js) && IsList(code, list, s) && S(s) !! S(js)
      modifies this`code, this`error, this`jpc, this`js, this`lasttarget
      ensures IsList(code, jpc, js) && js == old(js) + s && SameButJumps(old(code), code, S(old(js)))
      ensures (old(error) ==> error) && (error ==> old(error) || |code| > MAXARG_sBx) && |old(code)| <= |code|
    {
      var _ := GetLabel();
      jpc := Concat(jpc, list, js, s);
      js := js + s;
    }

    // ---------- Registers and constants ----------

    /** `luaK_reserveregs`, with `luaK_checkstack` */
    method ReserveRegs(n: nat)
      modifies this`freereg, this`error
      ensures freereg == old(freereg) + n && error == (old(error) || freereg >= MAXSTACK)
    {
      if freereg + n >= MAXSTACK {
        error := true;                     // "function or expression too complex"
      }
      freereg := freereg + n;
    }

    /** `freeexp`: a temporary register is given back, the last one first. */
    method FreeExp(d: ExpDesc)
      requires d.k.VNonReloc? && d.info >= nactvar ==> freereg == d.info + 1
      modifies this`freereg
      ensures freereg == if d.k.VNonReloc? && d.info >= nactvar then old(freereg) - 1 else old(freereg)
    {
      if d.k.VNonReloc? && d.info >= nactvar {
        freereg := freereg - 1;
      }
    }

    /** `addk`: the number of a constant, old or new. */
    method AddK(v: Value) returns (i: nat)
      modifies this`k
      ensures k == (if v in old(k) then old(k) else old(k) + [v]) && i < |k| && k[i] == v && i <= |old(k)|
    {
      i := 0;
      while i < |k|
        invariant i <= |k| && k == old(k) && v !in k[..i]
      {
        if k[i] == v {
          return;
        }
        i := i + 1;
      }
      assert k[..i] == k;
      k := k + [v];
    }

    // ---------- Putting values into registers ----------

    /** `luaK_dischargevars` */
    method DischargeVars(d: ExpDesc, ghost ts: seq<nat>, ghost fs: seq<nat>, ghost c0: Code, ghost js0: seq<nat>,
        ghost e: Expr, ghost base: nat)
      returns (r: ExpDesc)
      requires Ok(c0, js0, mixed, code, jpc, js, d, ts, fs, bad)
      modifies this`code, this`error, this`jpc, this`js
      ensures Ok(c0, js0, mixed, code, jpc, js, r, ts, fs, bad)
      ensures if d.k.VGlobal? then r == d.(k := VRelocable, info := r.info) && r.info < |code| &&
          code[r.info].GetGlobal?
              else if d.k.VLocal? then r == d.(k := VNonReloc) && code == old(code)
              else r == d && code == old(code) && js == old(js)
      ensures (old(error) ==> error) && (error ==> old(error) || |code| > MAXARG_sBx) && |old(code)| <= |code|
      ensures old(All(k, code, ts, fs, js, c0, js0, d, e, base, bad)) ==>
          All(k, code, ts, fs, js, c0, js0, r, e, base, bad)
      ensures KeepsSet(old(code), code, ts) && KeepsSet(old(code), code, fs)
      ensures js == if d.k.VGlobal? then [] else old(js)
    {
      OkParts(c0, js0, mixed, code, jpc, js, d, ts, fs, bad);
      hide Ok, All;
      if d.k.VLocal? {
        r := d.(k := VNonReloc);
        RenameOk(c0, js0, mixed, code, jpc, js, d, ts, fs, r, bad);
        if All(k, code, ts, fs, js, c0, js0, d, e, base, bad) {
          RenameAll(k, k, code, ts, fs, js, c0, js0, d, r, e, base, bad);
        }
      } else if d.k.VGlobal? {
        r := StartGlobal(d, ts, fs, c0, js0, e, base);
      } else {
        r := d;
      }
    }

    method StartGlobal(d: ExpDesc, ghost ts: seq<nat>, ghost fs: seq<nat>, ghost c0: Code, ghost js0: seq<nat>,
        ghost e: Expr, ghost base: nat)
      returns (r: ExpDesc)
      requires Ok(c0, js0, mixed, code, jpc, js, d, ts, fs, bad) && d.k.VGlobal?
      modifies this`code, this`error, this`jpc, this`js
      ensures Ok(c0, js0, mixed, code, jpc, js, r, ts, fs, bad)
      ensures r == d.(k := VRelocable, info := r.info) && r.info < |code| && code[r.info].GetGlobal?
      ensures (old(error) ==> error) && (error ==> old(error) || |code| > MAXARG_sBx) && |old(code)| <= |code|
      ensures old(All(k, code, ts, fs, js, c0, js0, d, e, base, bad)) ==>
          All(k, code, ts, fs, js, c0, js0, r, e, base, bad)
      ensures KeepsSet(old(code), code, ts) && KeepsSet(old(code), code, fs) && js == []
    {
      OkParts(c0, js0, mixed, code, jpc, js, d, ts, fs, bad);
      hide Ok, All;
      ghost var c, s, l := code, js, jpc;
      var pc := CodeI(GetGlobal(0, d.info));
      r := d.(k := VRelocable, info := pc);
      GlobalStarted(k, c0, js0, mixed, c, l, s, d, ts, fs, code, r, e, base, bad);
      OkFlushed(c0, js0, mixed, c, l, s, d, ts, fs, code, bad);
    }

    /** The instruction that loads a value that is not in a register; constants may be added. */
    method LoadInstr(d: ExpDesc, reg: nat) returns (i: Instr)
      requires IsLiteral(d)
      modifies this`k
      ensures old(k) <= k && IsPlain(i) && Loads(k, i, reg, d)
      ensures k == AfterLoad(old(k), SortOf(code, d))
    {
      match d.k {
        case VNil =>
          i := LoadNil(reg, reg);
          NilOne(reg);
        case VK => i := LoadK(reg, d.info);
        case VKNum =>
          var n := AddK(Other(d.nval));
          i := LoadK(reg, n);
        case _ => i := LoadBool(reg, d.k.VTrue?, false);
      }
    }

    /** `discharge2reg`; a comparison is left as it is. */
    method Discharge2Reg(d: ExpDesc, reg: nat, ghost ts: seq<nat>, ghost fs: seq<nat>, ghost c0: Code,
        ghost js0: seq<nat>, ghost e: Expr, ghost base: nat)
      returns (r: ExpDesc)
      requires Ok(c0, js0, mixed, code, jpc, js, d, ts, fs, bad) && base <= reg
      modifies this`code, this`error, this`jpc, this`js, this`k
      ensures Ok(c0, js0, mixed, code, jpc, js, r, ts, fs, bad) && old(k) <= k
      ensures if d.k.VJmp? then r == d && code == old(code) && jpc == old(jpc) && js == old(js) && k == old(k)
              else r == d.(k := VNonReloc, info := reg)
      ensures (old(error) ==> error) && (error ==> old(error) || |code| > MAXARG_sBx) && |old(code)| <= |code|
      ensures old(All(k, code, ts, fs, js, c0, js0, d, e, base, bad)) ==>
          All(k, code, ts, fs, js, c0, js0, r, e, base, bad)
      ensures KeepsSet(old(code), code, ts) && KeepsSet(old(code), code, fs)
      ensures k == AfterLoad(old(k), SortOf(old(code), d))
      ensures !d.k.VJmp? && !((d.k.VNonReloc? || d.k.VLocal?) && d.info == reg) ==> js == []
    {
      hide Ok, All;
      var v := d;
      if !d.k.VJmp? {
        v := DischargeVars(d, ts, fs, c0, js0, e, base);
      }
      if v.k.VRelocable? {
        r := Relocate(v, reg, ts, fs, c0, js0, e, base);
      } else if v.k.VNonReloc? {
        r := MoveTo(v, reg, ts, fs, c0, js0, e, base);
      } else if v.k.VJmp? {
        r := v;
      } else {
        r := Load(v, reg, ts, fs, c0, js0, e, base);
      }
    }

    method Relocate(v: ExpDesc, reg: nat, ghost ts: seq<nat>, ghost fs: seq<nat>, ghost c0: Code, ghost js0: seq<nat>,
        ghost e: Expr, ghost base: nat)
      returns (r: ExpDesc)
      requires Ok(c0, js0, mixed, code, jpc, js, v, ts, fs, bad) && base <= reg && v.k.VRelocable?
      modifies this`code
      ensures Ok(c0, js0, mixed, code, jpc, js, r, ts, fs, bad) && r == v.(k := VNonReloc, info := reg) &&
          |code| == |old(code)|
      ensures old(All(k, code, ts, fs, js, c0, js0, v, e, base, bad)) ==>
          All(k, code, ts, fs, js, c0, js0, r, e, base, bad)
      ensures KeepsSet(old(code), code, ts) && KeepsSet(old(code), code, fs) && js == []
    {
      NoneWait(c0, js0, mixed, code, jpc, js, v, ts, fs, bad);
      hide Ok, All;
      ghost var c := code;
      r := v.(k := VNonReloc, info := reg);
      RelocateOk(c0, js0, mixed, code, jpc, v, ts, fs, r, reg, bad);
      if All(k, c, ts, fs, js, c0, js0, v, e, base, bad) {
        RelocateAll(k, c0, js0, mixed, code, jpc, v, ts, fs, r, reg, e, base, bad);
      }
      code := code[v.info := WithA(code[v.info], reg)];
      RelocatedSet(c0, js0, mixed, c, jpc, js, v, ts, fs, code, bad);
    }

    method MoveTo(v: ExpDesc, reg: nat, ghost ts: seq<nat>, ghost fs: seq<nat>, ghost c0: Code, ghost js0: seq<nat>,
        ghost e: Expr, ghost base: nat)
      returns (r: ExpDesc)
      requires Ok(c0, js0, mixed, code, jpc, js, v, ts, fs, bad) && base <= reg && v.k.VNonReloc?
      modifies this`code, this`error, this`jpc, this`js
      ensures Ok(c0, js0, mixed, code, jpc, js, r, ts, fs, bad) && r == v.(info := reg)
      ensures (old(error) ==> error) && (error ==> old(error) || |code| > MAXARG_sBx) && |old(code)| <= |code|
      ensures old(All(k, code, ts, fs, js, c0, js0, v, e, base, bad)) ==>
          All(k, code, ts, fs, js, c0, js0, r, e, base, bad)
      ensures KeepsSet(old(code), code, ts) && KeepsSet(old(code), code, fs)
      ensures js == if reg == v.info then old(js) else []
    {
      OkParts(c0, js0, mixed, code, jpc, js, v, ts, fs, bad);
      hide Ok, All;
      ghost var c, s, l := code, js, jpc;
      r := v.(info := reg);
      if reg != v.info {
        var _ := CodeI(Move(reg, v.info));
        EmitOk(c0, js0, mixed, c, l, s, v, ts, fs, code, Move(reg, v.info), r, bad);
        if All(k, c, ts, fs, s, c0, js0, v, e, base, bad) {
          MoveAll(k, c0, js0, mixed, c, l, s, v, ts, fs, code, r, e, base, bad);
        }
        OkFlushed(c0, js0, mixed, c, l, s, v, ts, fs, code, bad);
      }
    }

    method Load(v: ExpDesc, reg: nat, ghost ts: seq<nat>, ghost fs: seq<nat>, ghost c0: Code, ghost js0: seq<nat>,
        ghost e: Expr, ghost base: nat)
      returns (r: ExpDesc)
      requires Ok(c0, js0, mixed, code, jpc, js, v, ts, fs, bad) && base <= reg && IsLiteral(v)
      modifies this`code, this`error, this`jpc, this`js, this`k
      ensures Ok(c0, js0, mixed, code, jpc, js, r, ts, fs, bad) && r == v.(k := VNonReloc, info := reg) && old(k) <= k
      ensures (old(error) ==> error) && (error ==> old(error) || |code| > MAXARG_sBx) && |old(code)| <= |code|
      ensures old(All(k, code, ts, fs, js, c0, js0, v, e, base, bad)) ==>
          All(k, code, ts, fs, js, c0, js0, r, e, base, bad)
      ensures KeepsSet(old(code), code, ts) && KeepsSet(old(code), code, fs) && js == [] &&
          k == AfterLoad(old(k), SortOf(old(code), v))
    {
      OkParts(c0, js0, mixed, code, jpc, js, v, ts, fs, bad);
      hide Ok, All, Loads;
      ghost var c, s, l, k0 := code, js, jpc, k;
      r := v.(k := VNonReloc, info := reg);
      var i := LoadInstr(v, reg);
      var _ := CodeI(i);
      EmitOk(c0, js0, mixed, c, l, s, v, ts, fs, code, i, r, bad);
      if All(k0, c, ts, fs, s, c0, js0, v, e, base, bad) {
        LoadAll(k0, k, c0, js0, mixed, c, l, s, v, ts, fs, code, i, r, e, base, bad);
      }
      OkFlushed(c0, js0, mixed, c, l, s, v, ts, fs, code, bad);
    }

    // ---------- Whole values ----------

    /** `code_label`, twice: the instructions that produce `false` and `true`. */
    method CodeLabels(reg: nat) returns (pf: nat, pt: nat)
      requires jpc == NO_JUMP && js == []
      modifies this`code, this`error, this`jpc, this`js, this`lasttarget
      ensures code == old(code) + [LoadBool(reg, false, true), LoadBool(reg, true, false)] && jpc == NO_JUMP && js == []
      ensures pf == |old(code)| && pt == pf + 1
      ensures (old(error) ==> error) && (error ==> old(error) || |code| > MAXARG_sBx) && |old(code)| <= |code|
    {
      ghost var c := code;
      NothingFlushed(code);
      var _ := GetLabel();
      pf := CodeI(LoadBool(reg, false, true));
      FlushNothing(c, code[..pf]);
      ghost var c1 := code;
      NothingFlushed(code);
      var _ := GetLabel();
      pt := CodeI(LoadBool(reg, true, false));
      FlushNothing(c1, code[..pt]);
    }

    /** The value part of `exp2reg` when a jump does not bring its value: labels behind the value, and a
        jump over them. */
    method LabelsBehind(v: ExpDesc, ghost ts: seq<nat>, ghost fs: seq<nat>, ghost c0: Code, ghost js0: seq<nat>,
        ghost e: Expr, ghost base: nat)
      returns (pf: nat, pt: nat)
      requires Ok(c0, js0, mixed, code, jpc, js, v, ts, fs, bad) && v.k.VNonReloc?
      modifies this`code, this`error, this`jpc, this`js, this`lasttarget
      ensures Ok(c0, js0, mixed, code, jpc, js, v, ts, fs, bad) && Labels(code, v.info) && pf == |code| - 2 &&
          pt == |code| - 1 && |c0| <= pf
      ensures forall j :: j in S(ts) + S(fs) ==> j < pf
      ensures (old(error) ==> error) && (error ==> old(error) || |code| > MAXARG_sBx) && |old(code)| <= |code|
      ensures old(All(k, code, ts, fs, js, c0, js0, v, e, base, bad)) ==>
          All(k, code, ts, fs, js, c0, js0, v, e, base, bad)
      ensures old(js) == [] ==> !Mixes(code, js)
    {
      hide *;
      OkParts(c0, js0, mixed, code, jpc, js, v, ts, fs, bad);
      OpenInside(c0, js0, mixed, code, jpc, js, v, ts, fs, bad);
      ghost var c, l, s := code, jpc, js;
      var fj := NewJump();
      ghost var c1 := code;
      pf, pt := CodeLabels(v.info);
      LabelsPut(c1, code, v.info, fj, [fj] + s);
      NothingFlushed(code);
      NoneApart(S([fj] + s));
      ghost var c2 := code;
      PatchToHere(fj, [fj] + s);
      SameCode(c2, code);
      SameNothing(c, c1, code, [fj] + s, js);
      LabelUnset(c0, js0, mixed, c, l, s, v, ts, fs, code, fj, js, bad);
      HeldDone(k, c0, js0, mixed, c, l, s, v, ts, fs, code, jpc, e, base, bad);
    }

    /** The same for a comparison: it falls through to `false`, and its own jump joins the true list. */
    method LabelsForJump(v: ExpDesc, reg: nat, ghost ts: seq<nat>, ghost fs: seq<nat>, ghost c0: Code,
        ghost js0: seq<nat>, ghost e: Expr, ghost base: nat)
      returns (r: ExpDesc, pf: nat, pt: nat)
      requires Ok(c0, js0, mixed, code, jpc, js, v, ts, fs, bad) && v.k.VJmp? && base <= reg
      modifies this`code, this`error, this`jpc, this`js, this`lasttarget
      ensures Ok(c0, js0, mixed, code, jpc, js, r, ts + [v.info], fs, bad) && Labels(code, reg) && pf == |code| - 2 &&
          pt == |code| - 1
      ensures r.k.VNonReloc? && r.info == reg && |c0| <= pf && forall j :: j in S(ts + [v.info]) + S(fs) ==> j < pf
      ensures (old(error) ==> error) && (error ==> old(error) || |code| > MAXARG_sBx) && |old(code)| <= |code|
      ensures old(All(k, code, ts, fs, js, c0, js0, v, e, base, bad)) ==>
          All(k, code, ts + [v.info], fs, js, c0, js0, r, e, base, bad)
      ensures js == []
    {
      hide *;
      ghost var c, l := code, jpc;
      JumpReady(c0, js0, mixed, code, jpc, js, v, ts, fs, bad);
      var t := Concat(v.t, v.info, ts, [v.info]);
      ghost var c1 := code;
      pf, pt := CodeLabels(reg);
      LabelsPut(c1, code, reg, t, ts + [v.info]);
      r := v.(k := VNonReloc, info := reg, t := t);
      JumpDone(k, c0, js0, mixed, c, l, v, ts, fs, code, r, e, base, bad);
    }

    /** The end of `exp2reg`: both lists get their targets. */
    method PatchBoth(v: ExpDesc, pf: int, pt: int, ghost ts: seq<nat>, ghost fs: seq<nat>, ghost c0: Code,
        ghost js0: seq<nat>, ghost e: Expr, ghost base: nat)
      returns (r: ExpDesc)
      requires Ok(c0, js0, mixed, code, jpc, js, v, ts, fs, bad) && v.k.VNonReloc? && base <= v.info
      requires LabelsOr(code, |c0|, S(ts) + S(fs), v.info, pf, pt)
      requires mixed || !Asks(ts, fs, bad)
      modifies this`code, this`error, this`lasttarget
      ensures Ok(c0, js0, mixed, code, jpc, js, r, [], [], bad) && r == v.(t := NO_JUMP, f := NO_JUMP)
      ensures (old(error) ==> error) && (error ==> old(error) || |code| > MAXARG_sBx) && |old(code)| <= |code|
      ensures old(All(k, code, ts, fs, js, c0, js0, v, e, base, bad)) && v.info < NO_REG && !mixed ==>
          All(k, code, [], [], js, c0, js0, r, e, base, bad)
      ensures KeepsSet(old(code), code, js)
    {
      ghost var c := code;
      PatchReady(c0, js0, mixed, code, jpc, js, v, ts, fs, pf, pt, bad);
      hide *;
      var final := GetLabel();
      PatchListAux(v.f, fs, final, v.info, pf);
      ghost var c1 := code;
      var u := v.(f := NO_JUMP);
      FirstPatched(k, c0, js0, mixed, c, jpc, js, v, ts, fs, c1, pf, pt, u, e, base, bad);
      PatchedSet(c0, js0, mixed, c, jpc, js, v, ts, fs, c1, S(fs), final, v.info, pf, bad);
      PatchListAux(v.t, ts, final, v.info, pt);
      r := v.(t := NO_JUMP, f := NO_JUMP);
      SecondPatched(k, c0, js0, mixed, c1, jpc, js, u, ts, code, pf, pt, r, e, base, bad);
      PatchedSet(c0, js0, mixed, c1, jpc, js, u, ts, [], code, S(ts), final, v.info, pt, bad);
      KeepsTwice(c, c1, code, js);
    }

    /** `exp2reg`: whatever the value is, and however it is reached, it ends up in register `reg`. */
    method Exp2Reg(d: ExpDesc, reg: nat, ghost ts: seq<nat>, ghost fs: seq<nat>, ghost c0: Code, ghost js0: seq<nat>,
        ghost e: Expr, ghost base: nat)
      returns (r: ExpDesc)
      requires Ok(c0, js0, mixed, code, jpc, js, d, ts, fs, bad) && base <= reg
      modifies this`code, this`error, this`jpc, this`js, this`k, this`lasttarget, this`mixed
      ensures mixed == (old(mixed) || Asks(ts, fs, bad))
      ensures Ok(c0, js0, mixed, code, jpc, js, r, [], [], bad) && old(k) <= k
      ensures r.k.VNonReloc? && r.info == reg && r.t == r.f == NO_JUMP
      ensures (old(error) ==> error) && (error ==> old(error) || |code| > MAXARG_sBx) && |old(code)| <= |code|
      ensures old(All(k, code, ts, fs, js, c0, js0, d, e, base, bad)) && reg < NO_REG && !mixed ==>
          All(k, code, [], [], js, c0, js0, r, e, base, bad)
      ensures k == AfterLoad(old(k), SortOf(old(code), d))
      ensures !((d.k.VNonReloc? || d.k.VLocal?) && d.info == reg) ==> !Mixes(code, js)
    {
      hide *;
      OkLoosen(c0, js0, mixed, mixed || Asks(ts, fs, bad), code, jpc, js, d, ts, fs, bad);
      mixed := mixed || Asks(ts, fs, bad);
      var v := Discharge2Reg(d, reg, ts, fs, c0, js0, e, base);
      if v.k.VJmp? {                         // its jump never brings a value
        JumpAsks(c0, js0, mixed, code, jpc, js, v, ts, fs, bad);
        var u, pf, pt := LabelsForJump(v, reg, ts, fs, c0, js0, e, base);
        LabelsAre(code, |c0|, S(ts + [v.info]) + S(fs), reg, pf, pt);
        MixesNone(code);
        ghost var c := code;
        r := PatchBoth(u, pf, pt, ts + [v.info], fs, c0, js0, e, base);
        MixesKept(c, code, js);
      } else {
        OkLists(c0, js0, mixed, code, jpc, js, v, ts, fs, bad);
        if v.t != v.f {
          r := WithJumps(v, ts, fs, c0, js0, e, base);
        } else {
          MixesNone(code);
          r := v;
        }
      }
    }

    method WithJumps(v: ExpDesc, ghost ts: seq<nat>, ghost fs: seq<nat>, ghost c0: Code, ghost js0: seq<nat>,
        ghost e: Expr, ghost base: nat)
      returns (r: ExpDesc)
      requires Ok(c0, js0, mixed, code, jpc, js, v, ts, fs, bad) && v.k.VNonReloc? && base <= v.info
      requires mixed || !Asks(ts, fs, bad)
      modifies this`code, this`error, this`jpc, this`js, this`lasttarget
      ensures Ok(c0, js0, mixed, code, jpc, js, r, [], [], bad) && r == v.(t := NO_JUMP, f := NO_JUMP)
      ensures (old(error) ==> error) && (error ==> old(error) || |code| > MAXARG_sBx) && |old(code)| <= |code|
      ensures old(All(k, code, ts, fs, js, c0, js0, v, e, base, bad)) && v.info < NO_REG && !mixed ==>
          All(k, code, [], [], js, c0, js0, r, e, base, bad)
      ensures old(js) == [] ==> !Mixes(code, js)
    {
      hide *;
      OkLists(c0, js0, mixed, code, jpc, js, v, ts, fs, bad);
      var nt := NeedValue(v.t, ts);
      var nf := NeedValue(v.f, fs);
      var pf: int, pt: int := NO_JUMP, NO_JUMP;
      if nt || nf {
        pf, pt := LabelsBehind(v, ts, fs, c0, js0, e, base);
        OkLists(c0, js0, mixed, code, jpc, js, v, ts, fs, bad);
        LabelsAre(code, |c0|, S(ts) + S(fs), v.info, pf, pt);
      } else {
        NoLabels(code, |c0|, ts, fs, v.info);
        MixesNone(code);
      }
      ghost var c := code;
      r := PatchBoth(v, pf, pt, ts, fs, c0, js0, e, base);
      MixesKept(c, code, js);
    }

    /** `luaK_exp2nextreg` */
    method Exp2NextReg(d: ExpDesc, ghost ts: seq<nat>, ghost fs: seq<nat>, ghost c0: Code, ghost js0: seq<nat>,
        ghost e: Expr, ghost base: nat)
      returns (r: ExpDesc)
      requires Ok(c0, js0, mixed, code, jpc, js, d, ts, fs, bad) && Tidy(d, base, freereg, nactvar, k)
      modifies this`code, this`error, this`jpc, this`js, this`k, this`lasttarget, this`mixed, this`freereg
      ensures mixed == (old(mixed) || Asks(ts, fs, bad))
      ensures Ok(c0, js0, mixed, code, jpc, js, r, [], [], bad) && old(k) <= k
      ensures r.k.VNonReloc? && r.info == base && r.t == r.f == NO_JUMP && freereg == base + 1
      ensures (old(error) ==> error) && (error ==> old(error) || |code| > MAXARG_sBx || base + 1 >= MAXSTACK) &&
          |old(code)| <= |code|
      ensures Room(error, freereg)
      ensures old(All(k, code, ts, fs, js, c0, js0, d, e, base, bad)) && !error && !mixed ==>
          All(k, code, [], [], js, c0, js0, r, e, base, bad)
      ensures k == AfterLoad(old(k), SortOf(old(code), d))
      ensures !((d.k.VNonReloc? || d.k.VLocal?) && d.info == base) ==> !Mixes(code, js)
    {
      hide Ok, All;
      var v := DischargeVars(d, ts, fs, c0, js0, e, base);
      FreeExp(v);
      ReserveRegs(1);
      r := Exp2Reg(v, freereg - 1, ts, fs, c0, js0, e, base);
    }

    /** `luaK_exp2anyreg` */
    method Exp2AnyReg(d: ExpDesc, ghost ts: seq<nat>, ghost fs: seq<nat>, ghost c0: Code, ghost js0: seq<nat>,
        ghost e: Expr, ghost base: nat)
      returns (r: ExpDesc)
      requires Ok(c0, js0, mixed, code, jpc, js, d, ts, fs, bad) && Tidy(d, base, freereg, nactvar, k) &&
          Room(error, freereg)
      modifies this`code, this`error, this`jpc, this`js, this`k, this`lasttarget, this`mixed, this`freereg
      ensures mixed == (old(mixed) || Asks(ts, fs, bad))
      ensures Ok(c0, js0, mixed, code, jpc, js, r, [], [], bad) && old(k) <= k
      ensures r.k.VNonReloc? && r.t == r.f == NO_JUMP && Tidy(r, base, freereg, nactvar, k)
      ensures (old(error) ==> error) && (error ==> old(error) || |code| > MAXARG_sBx || base + 1 >= MAXSTACK) &&
          |old(code)| <= |code|
      ensures Room(error, freereg)
      ensures old(All(k, code, ts, fs, js, c0, js0, d, e, base, bad)) && !error && !mixed ==>
          All(k, code, [], [], js, c0, js0, r, e, base, bad)
      ensures k == AfterLoad(old(k), SortOf(old(code), d))
      ensures (d.k.VNonReloc? || d.k.VLocal?) && ts == [] && fs == [] ==> code == old(code) && js == old(js)
      ensures (d.k.VNonReloc? ==> d.info < nactvar) && !((d.k.VNonReloc? || d.k.VLocal?) && ts == [] && fs == []) ==>
          !Mixes(code, js)
    {
      hide Ok, All, Mixes, KeepsSet, IsList, S, Spoilt;
      SpoiltNone(bad);
      var v := DischargeVars(d, ts, fs, c0, js0, e, base);
      OkLists(c0, js0, mixed, code, jpc, js, v, ts, fs, bad);
      OpenInside(c0, js0, mixed, code, jpc, js, v, ts, fs, bad);
      if v.k.VNonReloc? {
        if v.t == v.f {
          return v;                          // nothing left to do
        }
        if v.info >= nactvar {               // its own temporary register will do
          r := Exp2Reg(v, v.info, ts, fs, c0, js0, e, base);
          return;
        }
      }
      r := Exp2NextReg(v, ts, fs, c0, js0, e, base);
    }

    /** `luaK_exp2val` */
    method Exp2Val(d: ExpDesc, ghost ts: seq<nat>, ghost fs: seq<nat>, ghost c0: Code, ghost js0: seq<nat>,
        ghost e: Expr, ghost base: nat)
      returns (r: ExpDesc)
      requires Ok(c0, js0, mixed, code, jpc, js, d, ts, fs, bad) && Tidy(d, base, freereg, nactvar, k) &&
          Room(error, freereg)
      modifies this`code, this`error, this`jpc, this`js, this`k, this`lasttarget, this`mixed, this`freereg
      ensures mixed == (old(mixed) || Asks(ts, fs, bad))
      ensures Ok(c0, js0, mixed, code, jpc, js, r, [], [], bad) && old(k) <= k && Tidy(r, base, freereg, nactvar, k)
      ensures (old(error) ==> error) && (error ==> old(error) || |code| > MAXARG_sBx || base + 1 >= MAXSTACK) &&
          |old(code)| <= |code|
      ensures Room(error, freereg)
      ensures old(All(k, code, ts, fs, js, c0, js0, d, e, base, bad)) && !error && !mixed ==>
          All(k, code, [], [], js, c0, js0, r, e, base, bad)
      ensures if ts == [] && fs == [] then
                && k == old(k) && (d.k.VGlobal? ==> js == [])
                && (!d.k.VGlobal? ==> code == old(code) && js == old(js) && r.info == d.info && r.nval == d.nval)
                && (!d.k.VGlobal? ==> r.k == if d.k.VLocal? then VNonReloc else d.k)
              else k == AfterLoad(old(k), SortOf(old(code), d)) && r.k.VNonReloc?
      ensures (d.k.VNonReloc? ==> d.info < nactvar) && (ts != [] || fs != []) ==> !Mixes(code, js)
      ensures d.k.VGlobal? ==> r.k.VRelocable? || r.k.VNonReloc?
    {
      hide Ok, All;
      OkLists(c0, js0, mixed, code, jpc, js, d, ts, fs, bad);
      OpenInside(c0, js0, mixed, code, jpc, js, d, ts, fs, bad);
      if d.t != d.f {
        r := Exp2AnyReg(d, ts, fs, c0, js0, e, base);
      } else {
        r := DischargeVars(d, ts, fs, c0, js0, e, base);
      }
    }

    /** `luaK_exp2RK`: a register, or a constant that fits into an operand. */
    method Exp2RK(d: ExpDesc, ghost ts: seq<nat>, ghost fs: seq<nat>, ghost c0: Code, ghost js0: seq<nat>,
        ghost e: Expr, ghost base: nat)
      returns (r: ExpDesc)
      requires Ok(c0, js0, mixed, code, jpc, js, d, ts, fs, bad) && Tidy(d, base, freereg, nactvar, k) &&
          Room(error, freereg)
      modifies this`code, this`error, this`jpc, this`js, this`k, this`lasttarget, this`mixed, this`freereg
      ensures mixed == (old(mixed) || Asks(ts, fs, bad))
      ensures Ok(c0, js0, mixed, code, jpc, js, r, [], [], bad) && old(k) <= k && InRK(r, base, freereg, nactvar)
      ensures (old(error) ==> error) && (error ==> old(error) || |code| > MAXARG_sBx || base + 1 >= MAXSTACK) &&
          |old(code)| <= |code|
      ensures Room(error, freereg)
      ensures old(All(k, code, ts, fs, js, c0, js0, d, e, base, bad)) && !error && !mixed ==>
          All(k, code, [], [], js, c0, js0, r, e, base, bad)
      ensures (d.k.VNonReloc? ==> d.info < nactvar) ==>
                (Mixes(code, js), k) == AsOperand(old(TraitsOf(code, d, ts, fs, js, k, bad)))
    {
      hide Ok, All, Mixes;
      var v := Exp2Val(d, ts, fs, c0, js0, e, base);
      MixesNone(code);
      r := FitOperand(v, c0, js0, e, base);
    }

    method FitOperand(v: ExpDesc, ghost c0: Code, ghost js0: seq<nat>, ghost e: Expr, ghost base: nat)
        returns (r: ExpDesc)
      requires Ok(c0, js0, mixed, code, jpc, js, v, [], [], bad) && Tidy(v, base, freereg, nactvar, k) &&
          Room(error, freereg)
      requires !v.k.VLocal? && !v.k.VGlobal?
      modifies this`code, this`error, this`jpc, this`js, this`k, this`lasttarget, this`mixed, this`freereg
      ensures mixed == old(mixed)
      ensures Ok(c0, js0, mixed, code, jpc, js, r, [], [], bad) && old(k) <= k && InRK(r, base, freereg, nactvar)
      ensures (old(error) ==> error) && (error ==> old(error) || |code| > MAXARG_sBx || base + 1 >= MAXSTACK) &&
          |old(code)| <= |code|
      ensures Room(error, freereg)
      ensures old(All(k, code, [], [], js, c0, js0, v, e, base, bad)) && !error && !mixed ==>
          All(k, code, [], [], js, c0, js0, r, e, base, bad)
      ensures (Mixes(code, js), k) == AsOperand(old(TraitsOf(code, v, [], [], js, k, bad)))
    {
      hide Ok, All, Mixes;
      if IsLiteral(v) && !v.k.VK? && |k| <= MAXINDEXRK {     // a literal becomes a constant of the function
        r := AsConstant(v, c0, js0, e, base);
      } else if v.k.VK? && v.info <= MAXINDEXRK {            // the operand has room for this constant
        r := v;
      } else {                               // else a register is needed
        if v.k.VRelocable? || v.k.VJmp? {
          NoneWait(c0, js0, mixed, code, jpc, js, v, [], [], bad);
        }
        r := Exp2AnyReg(v, [], [], c0, js0, e, base);
      }
    }

    /** A literal becomes a constant. */
    method AsConstant(v: ExpDesc, ghost c0: Code, ghost js0: seq<nat>, ghost e: Expr, ghost base: nat)
        returns (r: ExpDesc)
      requires Ok(c0, js0, mixed, code, jpc, js, v, [], [], bad) && IsLiteral(v) && !v.k.VK? && |k| <= MAXINDEXRK
      modifies this`k
      ensures Ok(c0, js0, mixed, code, jpc, js, r, [], [], bad) && old(k) <= k && r.k.VK? && r.info <= MAXINDEXRK
      ensures old(All(k, code, [], [], js, c0, js0, v, e, base, bad)) ==>
          All(k, code, [], [], js, c0, js0, r, e, base, bad)
      ensures k == Added(old(k), if v.k.VTrue? then Bool(true) else if v.k.VFalse? then Bool(false)
          else if v.k.VKNum? then Other(v.nval) else Nil)
    {
      ghost var k0 := k;
      var value :=
          match v.k case VTrue => Bool(true) case VFalse => Bool(false) case VKNum => Other(v.nval) case _ => Nil;
      var i := AddK(value);
      r := v.(k := VK, info := i);
      RenameOk(c0, js0, mixed, code, jpc, js, v, [], [], r, bad);
      hide Ok, All;
      if All(k0, code, [], [], js, c0, js0, v, e, base, bad) {
        RenameAll(k0, k, code, [], [], js, c0, js0, v, r, e, base, bad);
      }
    }

    /** `discharge2anyreg` */
    method Discharge2AnyReg(d: ExpDesc, ghost ts: seq<nat>, ghost fs: seq<nat>, ghost c0: Code, ghost js0: seq<nat>,
        ghost e: Expr, ghost base: nat)
      returns (r: ExpDesc)
      requires Ok(c0, js0, mixed, code, jpc, js, d, ts, fs, bad) && Tidy(d, base, freereg, nactvar, k) &&
          Room(error, freereg)
      requires !d.k.VJmp? && !d.k.VLocal? && !d.k.VGlobal?
      modifies this`code, this`error, this`jpc, this`js, this`k, this`freereg
      ensures Ok(c0, js0, mixed, code, jpc, js, r, ts, fs, bad) && old(k) <= k
      ensures r == d.(k := VNonReloc, info := r.info) && Tidy(r, base, freereg, nactvar, k)
      ensures (old(error) ==> error) && (error ==> old(error) || |code| > MAXARG_sBx || base + 1 >= MAXSTACK) &&
          |old(code)| <= |code|
      ensures Room(error, freereg)
      ensures old(All(k, code, ts, fs, js, c0, js0, d, e, base, bad)) ==>
          All(k, code, ts, fs, js, c0, js0, r, e, base, bad)
      ensures KeepsSet(old(code), code, ts) && KeepsSet(old(code), code, fs)
      ensures k == AfterLoad(old(k), SortOf(old(code), d)) &&
          (if d.k.VNonReloc? then code == old(code) && js == old(js) else js == [])
    {
      hide Ok, All;
      if d.k.VNonReloc? {
        r := d;
      } else {
        ReserveRegs(1);
        r := Discharge2Reg(d, freereg - 1, ts, fs, c0, js0, e, base);
      }
    }

    // ---------- Conditions ----------

    /** `condjump` */
    method CondJump(i: Instr) returns (j: nat)
      requires IsList(code, jpc, js)
      modifies this`code, this`error, this`jpc, this`js
      ensures j == |old(code)| + 1 && |code| == j + 1 && code[j - 1] == i && code[j] == Jmp(NO_JUMP)
      ensures Flushed(old(code), S(old(js)), code[..|old(code)|]) && jpc == NO_JUMP && js == []
      ensures (old(error) ==> error) && (error ==> old(error) || |code| > MAXARG_sBx) && |old(code)| <= |code|
    {
      ghost var c := code;
      var pc := CodeI(i);
      ghost var c1 := code;
      NothingFlushed(code);
      j := NewJump();
      assert code[..pc] == c1[..pc] && code[pc] ==
          c1[pc] by { assert code[..j][..pc] == code[..pc] && code[..j][pc] == code[pc]; }
    }

    /** `invertjump` */
    method InvertJump(info: nat)
      requires 0 < info < |code| && code[info - 1].Relop?
      modifies this`code
      ensures var i := old(code)[info - 1]; code == old(code)[info - 1 := Relop(i.rel, !i.want, i.b, i.c)]
    {
      var i := code[info - 1];
      code := code[info - 1 := Relop(i.rel, !i.want, i.b, i.c)];
    }

    /** `jumponcond`: the code leaves through the jump at `pc` if the value is `cond`. */
    method JumpOnCond(d: ExpDesc, cond: bool, ghost ts: seq<nat>, ghost fs: seq<nat>, ghost c0: Code,
        ghost js0: seq<nat>, ghost e: Expr, ghost base: nat)
      returns (pc: nat)
      requires Ok(c0, js0, mixed, code, jpc, js, d, ts, fs, bad) && Tidy(d, base, freereg, nactvar, k) &&
          Room(error, freereg)
      requires !d.k.VJmp? && !d.k.VLocal? && !d.k.VGlobal?
      modifies this`code, this`error, this`jpc, this`js, this`k, this`freereg
      ensures Branching(c0, js0, mixed, code, jpc, js, d.t, ts, d.f, fs, pc, [pc], bad) && old(k) <= k &&
          freereg == base
      ensures (old(error) ==> error) && (error ==> old(error) || |code| > MAXARG_sBx || base + 1 >= MAXSTACK) &&
          |old(code)| <= |code|
      ensures Room(error, freereg)
      ensures old(All(k, code, ts, fs, js, c0, js0, d, e, base, bad)) ==>
          AllLeave(k, code, ts, fs, [pc], js, c0, js0, e, base, cond, bad)
      ensures pc !in bad
      ensures KeepsSet(old(code), code, ts) && KeepsSet(old(code), code, fs) && js == []
      ensures k == AfterLoad(old(k), SortOf(old(code), d)) && (IsSet(code, pc) <==> !SortOf(old(code), d).Negation?)
    {
      hide Ok, All, AllLeave, Branching, KeepsSet, IsSet;
      OkInfo(c0, js0, mixed, code, jpc, js, d, ts, fs, bad);
      ghost var c := code;
      if d.k.VRelocable? && code[d.info].NotOp? {
        pc := TakeBackNot(d, cond, ts, fs, c0, js0, e, base);
      } else {
        var v := Discharge2AnyReg(d, ts, fs, c0, js0, e, base);
        ghost var c1 := code;
        FreeExp(v);
        pc := TestValue(v, cond, ts, fs, c0, js0, e, base);
        KeepsTwice(c, c1, code, ts);
        KeepsTwice(c, c1, code, fs);
      }
    }

    method TestValue(v: ExpDesc, cond: bool, ghost ts: seq<nat>, ghost fs: seq<nat>, ghost c0: Code,
        ghost js0: seq<nat>, ghost e: Expr, ghost base: nat)
      returns (pc: nat)
      requires Ok(c0, js0, mixed, code, jpc, js, v, ts, fs, bad) && v.k.VNonReloc?
      modifies this`code, this`error, this`jpc, this`js
      ensures Branching(c0, js0, mixed, code, jpc, js, v.t, ts, v.f, fs, pc, [pc], bad)
      ensures (old(error) ==> error) && (error ==> old(error) || |code| > MAXARG_sBx) && |old(code)| <= |code|
      ensures old(All(k, code, ts, fs, js, c0, js0, v, e, base, bad)) ==>
          AllLeave(k, code, ts, fs, [pc], js, c0, js0, e, base, cond, bad)
      ensures pc !in bad
      ensures KeepsSet(old(code), code, ts) && KeepsSet(old(code), code, fs) && js == [] && IsSet(code, pc)
    {
      OkLists(c0, js0, mixed, code, jpc, js, v, ts, fs, bad);
      ghost var c, l, s := code, jpc, js;
      hide *;
      pc := CondJump(TestSet(NO_REG, v.info, cond));
      BranchSet(k, c0, js0, mixed, c, l, s, v, ts, fs, code, e, base, cond, bad);
      OkFlushed(c0, js0, mixed, c, l, s, v, ts, fs, code, bad);
      TestIsSet(code, pc);
      BadInside(c0, js0, mixed, c, l, s, v, ts, fs, bad);
    }

    method TakeBackNot(d: ExpDesc, cond: bool, ghost ts: seq<nat>, ghost fs: seq<nat>, ghost c0: Code,
        ghost js0: seq<nat>, ghost e: Expr, ghost base: nat)
      returns (pc: nat)
      requires Ok(c0, js0, mixed, code, jpc, js, d, ts, fs, bad) && d.k.VRelocable? && d.info < |code| &&
          code[d.info].NotOp?
      modifies this`code, this`error, this`jpc, this`js
      ensures Branching(c0, js0, mixed, code, jpc, js, d.t, ts, d.f, fs, pc, [pc], bad)
      ensures (old(error) ==> error) && (error ==> old(error) || |code| > MAXARG_sBx) && |old(code)| <= |code|
      ensures old(All(k, code, ts, fs, js, c0, js0, d, e, base, bad)) ==>
          AllLeave(k, code, ts, fs, [pc], js, c0, js0, e, base, cond, bad)
      ensures pc !in bad
      ensures KeepsSet(old(code), code, ts) && KeepsSet(old(code), code, fs) && js == [] && !IsSet(code, pc)
    {
      hide *;
      NothingWaits(c0, js0, mixed, code, jpc, js, d, ts, fs, bad);
      ghost var c, l := code, jpc;
      var ie := code[d.info];
      code := code[..|code| - 1];            // the NOT is the last instruction
      NothingFlushed(code);
      pc := CondJump(Test(ie.b, !cond));
      TakenBack(c, d.info, code);
      TakenBackSet(c0, js0, mixed, c, l, js, d, ts, fs, code, pc, bad);
      BadInside(c0, js0, mixed, c, l, js, d, ts, fs, bad);
      BranchTaken(k, c0, js0, mixed, c, l, d, ts, fs, code, e, base, cond, bad);
    }

    /** `luaK_jump` for a constant that decides the condition.  Values that wait here are misplaced from now on. */
    method AlwaysJump(d: ExpDesc, ghost ts: seq<nat>, ghost fs: seq<nat>, ghost c0: Code, ghost js0: seq<nat>,
        ghost e: Expr, ghost base: nat)
      returns (pc: nat, ghost ps: seq<nat>)
      requires Ok(c0, js0, mixed, code, jpc, js, d, ts, fs, bad) && (d.k.VTrue? || d.k.VFalse?)
      modifies this`code, this`error, this`jpc, this`js, this`bad
      ensures Branching(c0, js0, mixed, code, jpc, js, d.t, ts, d.f, fs, pc, ps, bad)
      ensures (old(error) ==> error) && (error ==> old(error) || |code| > MAXARG_sBx) && |old(code)| <= |code|
      ensures old(All(k, code, ts, fs, js, c0, js0, d, e, base, bad)) ==>
          AllLeave(k, code, ts, fs, ps, js, c0, js0, e, base, d.k.VTrue?, bad)
      ensures KeepsSet(old(code), code, ts) && KeepsSet(old(code), code, fs) && js == [] && ps != []
      ensures Mixes(code, ps) <==> Mixes(old(code), old(js))
      ensures Spoilt(ps, bad) <==> Mixes(old(code), old(js))
      ensures SameSpoilt(ts, fs, old(bad), bad) && SameBad(c0, js0, old(bad), bad)
    {
      OkParts(c0, js0, mixed, code, jpc, js, d, ts, fs, bad);
      hide Ok, All, AllLeave, Branching, Mixes, Spoilt, SameBad;
      ghost var c, l, s := code, jpc, js;
      pc := NewJump();
      ps := [pc] + s;
      BranchForever(k, c0, js0, mixed, c, l, s, d, ts, fs, code, e, base, d.k.VTrue?, bad);
      HeldSet(c0, js0, mixed, c, l, s, d, ts, fs, code, pc, ps, bad);
      HeldBad(c0, js0, mixed, c, l, s, d, ts, fs, pc, ps, bad);
      bad := bad + Misplaced(c, S(s));
    }

    /** The end of `luaK_goiftrue` (`cond` is false) and `luaK_goiffalse` (`cond` is true): the jumps of
        the value join the list that leaves, the other list goes to the current position. */
    method FinishTest(d: ExpDesc, cond: bool, pc: int, ghost ps: seq<nat>, ghost ts: seq<nat>, ghost fs: seq<nat>,
        ghost c0: Code, ghost js0: seq<nat>, ghost e: Expr, ghost base: nat)
      returns (l: int, ghost xs: seq<nat>)
      requires Branching(c0, js0, mixed, code, jpc, js, d.t, ts, d.f, fs, pc, ps, bad)
      modifies this`code, this`error, this`jpc, this`js, this`lasttarget, this`bad
      ensures CondOk(c0, js0, mixed, code, jpc, js, l, xs, bad)
      ensures (old(error) ==> error) && (error ==> old(error) || |code| > MAXARG_sBx) && |old(code)| <= |code|
      ensures old(AllLeave(k, code, ts, fs, ps, js, c0, js0, e, base, cond, bad)) ==>
                AllTests(k, code, When(cond, S(xs)), When(!cond, S(xs)), js, c0, js0, e, base, cond, bad)
      ensures xs != [] <==> (if cond then ts else fs) != [] || ps != []
      ensures Mixes(code, xs) <==> Mixes(old(code), if cond then ts else fs) || Mixes(old(code), ps)
      ensures Spoilt(xs, bad) <==> Spoilt(if cond then ts else fs, old(bad)) || Spoilt(ps, old(bad))
      ensures SameBad(c0, js0, old(bad), bad)
      ensures Mixes(code, js) <==> Mixes(old(code), old(js)) || Mixes(old(code), if cond then fs else ts)
    {
      hide *;
      ghost var c, s, j := code, js, jpc;
      JoinReady(c0, js0, mixed, code, jpc, js, d.t, ts, d.f, fs, pc, ps, bad);
      BranchingPending(c0, js0, mixed, code, jpc, js, d.t, ts, d.f, fs, pc, ps, bad);
      xs := (if cond then ts else fs) + ps;
      l := Concat(if cond then d.t else d.f, pc, if cond then ts else fs, ps);
      ghost var c1 := code;
      SameList(c, c1, S(if cond then ts else fs), jpc, js);
      SameList(c, c1, S(if cond then ts else fs), if cond then d.f else d.t, if cond then fs else ts);
      PatchToHere(if cond then d.f else d.t, if cond then fs else ts);
      LandedOk(c0, js0, mixed, c, j, s, d.t, ts, d.f, fs, pc, ps, cond, c1, l, code, jpc, bad);
      LandedSet(c0, js0, mixed, c, j, s, d.t, ts, d.f, fs, pc, ps, if cond then ts else fs, if cond then fs
          else ts, c1, code, bad);
      LandedBad(c0, js0, mixed, c, j, s, d.t, ts, d.f, fs, pc, ps, cond, xs, js, bad);
      if AllLeave(k, c, ts, fs, ps, s, c0, js0, e, base, cond, bad) {
        LandedAll(k, c0, js0, c, s, ts, fs, ps, cond, code, e, base, bad);
        LandedApart(c0, js0, mixed, c, j, s, d.t, ts, d.f, fs, pc, ps, cond, xs, js, bad);
        AllTestsWeaken(k, code, When(cond, S(xs)), When(!cond, S(xs)), js, c0, js0, e, base, cond, bad, bad - S(js));
      }
      bad := bad - S(js);
    }

    /** `luaK_goiftrue`: go on if the value is true, else leave through the list `l`. */
    method GoIfTrue(d: ExpDesc, ghost ts: seq<nat>, ghost fs: seq<nat>, ghost c0: Code, ghost js0: seq<nat>,
        ghost e: Expr, ghost base: nat)
      returns (l: int, ghost xs: seq<nat>)
      requires Ok(c0, js0, mixed, code, jpc, js, d, ts, fs, bad) && Tidy(d, base, freereg, nactvar, k) &&
          Room(error, freereg)
      modifies this`code, this`error, this`jpc, this`js, this`k, this`lasttarget, this`freereg, this`bad
      ensures CondOk(c0, js0, mixed, code, jpc, js, l, xs, bad) && old(k) <= k && freereg == base
      ensures (old(error) ==> error) && (error ==> old(error) || |code| > MAXARG_sBx || base + 1 >= MAXSTACK) &&
          |old(code)| <= |code|
      ensures Room(error, freereg)
      ensures old(All(k, code, ts, fs, js, c0, js0, d, e, base, bad)) ==>
                AllTests(k, code, When(false, S(xs)), When(true, S(xs)), js, c0, js0, e, base, false, bad)
      ensures var x := Leave(old(TraitsOf(code, d, ts, fs, js, k, bad)), false);
              Exiting(x, code, xs, js, k, bad)
      ensures SameBad(c0, js0, old(bad), bad)
    {
      hide Ok, All, AllLeave, AllTests, Branching, CondOk, S, When, Mixes, Spoilt, SameBad;
      ghost var bad0 := bad;
      var v := DischargeVars(d, ts, fs, c0, js0, e, base);
      var pc, ps := TrueTest(v, ts, fs, c0, js0, e, base);
      ghost var bad1 := bad;
      l, xs := FinishTest(v, false, pc, ps, ts, fs, c0, js0, e, base);
      SameBadTrans(c0, js0, bad0, bad1, bad);
    }

    method TrueTest(v: ExpDesc, ghost ts: seq<nat>, ghost fs: seq<nat>, ghost c0: Code, ghost js0: seq<nat>,
        ghost e: Expr, ghost base: nat)
      returns (pc: int, ghost ps: seq<nat>)
      requires Ok(c0, js0, mixed, code, jpc, js, v, ts, fs, bad) && Tidy(v, base, freereg, nactvar, k) &&
          Room(error, freereg)
      requires !v.k.VLocal? && !v.k.VGlobal?
      modifies this`code, this`error, this`jpc, this`js, this`k, this`freereg, this`bad
      ensures Branching(c0, js0, mixed, code, jpc, js, v.t, ts, v.f, fs, pc, ps, bad) && old(k) <= k && freereg == base
      ensures (old(error) ==> error) && (error ==> old(error) || |code| > MAXARG_sBx || base + 1 >= MAXSTACK) &&
          |old(code)| <= |code|
      ensures Room(error, freereg)
      ensures old(All(k, code, ts, fs, js, c0, js0, v, e, base, bad)) ==>
          AllLeave(k, code, ts, fs, ps, js, c0, js0, e, base, false, bad)
      ensures KeepsSet(old(code), code, ts) && KeepsSet(old(code), code, fs)
      ensures var x := Decide(old(TraitsOf(code, v, ts, fs, js, k, bad)), false);
              Exiting(x, code, ps, js, k, bad)
      ensures SameSpoilt(ts, fs, old(bad), bad) && SameBad(c0, js0, old(bad), bad)
    {
      hide Ok, All, AllLeave, Branching, S, Mixes, IsSet;
      MixesNone(code);
      if v.k.VK? || v.k.VKNum? || v.k.VTrue? {
        pc, ps := NO_JUMP, [];             // no jump
        BranchNever(k, c0, js0, mixed, code, jpc, js, v, ts, fs, e, base, false, bad);
      } else if v.k.VFalse? {
        pc, ps := AlwaysJump(v, ts, fs, c0, js0, e, base);     // an unconditional jump
      } else if v.k.VJmp? {
        ComparisonReady(c0, js0, mixed, code, jpc, js, v, ts, fs, bad);
        JumpAsks(c0, js0, mixed, code, jpc, js, v, ts, fs, bad);
        ghost var c, j := code, jpc;
        InvertJump(v.info);
        pc, ps := v.info, [v.info];
        BranchCompare(k, c0, js0, mixed, c, j, v, ts, fs, code, e, base, false, bad);
        ComparedSet(c0, js0, mixed, c, j, js, v, ts, fs, code, bad);
        MixesOne(code, pc);
        SpoiltOne(pc, bad);
      } else {
        pc := JumpOnCond(v, false, ts, fs, c0, js0, e, base);
        ps := [pc];
        MixesOne(code, pc);
        SpoiltOne(pc, bad);
      }
      MixesNone(code);
      SpoiltNone(bad);
    }

    /** `luaK_goiffalse` */
    method GoIfFalse(d: ExpDesc, ghost ts: seq<nat>, ghost fs: seq<nat>, ghost c0: Code, ghost js0: seq<nat>,
        ghost e: Expr, ghost base: nat)
      returns (l: int, ghost xs: seq<nat>)
      requires Ok(c0, js0, mixed, code, jpc, js, d, ts, fs, bad) && Tidy(d, base, freereg, nactvar, k) &&
          Room(error, freereg)
      modifies this`code, this`error, this`jpc, this`js, this`k, this`lasttarget, this`freereg, this`bad
      ensures CondOk(c0, js0, mixed, code, jpc, js, l, xs, bad) && old(k) <= k && freereg == base
      ensures (old(error) ==> error) && (error ==> old(error) || |code| > MAXARG_sBx || base + 1 >= MAXSTACK) &&
          |old(code)| <= |code|
      ensures Room(error, freereg)
      ensures old(All(k, code, ts, fs, js, c0, js0, d, e, base, bad)) ==>
                AllTests(k, code, When(true, S(xs)), When(false, S(xs)), js, c0, js0, e, base, true, bad)
      ensures var x := Leave(old(TraitsOf(code, d, ts, fs, js, k, bad)), true);
              Exiting(x, code, xs, js, k, bad)
      ensures SameBad(c0, js0, old(bad), bad)
    {
      hide Ok, All, AllLeave, AllTests, Branching, CondOk, S, When, Mixes, Spoilt, SameBad;
      ghost var bad0 := bad;
      var v := DischargeVars(d, ts, fs, c0, js0, e, base);
      var pc, ps := FalseTest(v, ts, fs, c0, js0, e, base);
      ghost var bad1 := bad;
      l, xs := FinishTest(v, true, pc, ps, ts, fs, c0, js0, e, base);
      SameBadTrans(c0, js0, bad0, bad1, bad);
    }

    method FalseTest(v: ExpDesc, ghost ts: seq<nat>, ghost fs: seq<nat>, ghost c0: Code, ghost js0: seq<nat>,
        ghost e: Expr, ghost base: nat)
      returns (pc: int, ghost ps: seq<nat>)
      requires Ok(c0, js0, mixed, code, jpc, js, v, ts, fs, bad) && Tidy(v, base, freereg, nactvar, k) &&
          Room(error, freereg)
      requires !v.k.VLocal? && !v.k.VGlobal?
      modifies this`code, this`error, this`jpc, this`js, this`k, this`freereg, this`bad
      ensures Branching(c0, js0, mixed, code, jpc, js, v.t, ts, v.f, fs, pc, ps, bad) && old(k) <= k && freereg == base
      ensures (old(error) ==> error) && (error ==> old(error) || |code| > MAXARG_sBx || base + 1 >= MAXSTACK) &&
          |old(code)| <= |code|
      ensures Room(error, freereg)
      ensures old(All(k, code, ts, fs, js, c0, js0, v, e, base, bad)) ==>
          AllLeave(k, code, ts, fs, ps, js, c0, js0, e, base, true, bad)
      ensures KeepsSet(old(code), code, ts) && KeepsSet(old(code), code, fs)
      ensures var x := Decide(old(TraitsOf(code, v, ts, fs, js, k, bad)), true);
              Exiting(x, code, ps, js, k, bad)
      ensures SameSpoilt(ts, fs, old(bad), bad) && SameBad(c0, js0, old(bad), bad)
    {
      hide Ok, All, AllLeave, Branching, S, Mixes;
      MixesNone(code);
      if v.k.VNil? || v.k.VFalse? {
        pc, ps := NO_JUMP, [];             // no jump
        BranchNever(k, c0, js0, mixed, code, jpc, js, v, ts, fs, e, base, true, bad);
      } else if v.k.VTrue? {
        pc, ps := AlwaysJump(v, ts, fs, c0, js0, e, base);     // an unconditional jump
      } else if v.k.VJmp? {
        ComparisonReady(c0, js0, mixed, code, jpc, js, v, ts, fs, bad);
        JumpAsks(c0, js0, mixed, code, jpc, js, v, ts, fs, bad);
        pc, ps := v.info, [v.info];
        SameRelop(code, v.info);
        BranchCompare(k, c0, js0, mixed, code, jpc, v, ts, fs, code, e, base, true, bad);
        MixesOne(code, pc);
        SpoiltOne(pc, bad);
      } else {
        pc := JumpOnCond(v, true, ts, fs, c0, js0, e, base);
        ps := [pc];
        MixesOne(code, pc);
        SpoiltOne(pc, bad);
      }
      MixesNone(code);
      SpoiltNone(bad);
    }

    // ---------- `not` ----------

    /** `codenot` */
    method CodeNot(d: ExpDesc, ghost ts: seq<nat>, ghost fs: seq<nat>, ghost c0: Code, ghost js0: seq<nat>,
        ghost e: Expr, ghost base: nat)
      returns (r: ExpDesc)
      requires Ok(c0, js0, mixed, code, jpc, js, d, ts, fs, bad) && Tidy(d, base, freereg, nactvar, k) &&
          Room(error, freereg)
      modifies this`code, this`error, this`jpc, this`js, this`k, this`freereg, this`bad
      ensures Ok(c0, js0, mixed, code, jpc, js, r, fs, ts, bad) && old(k) <= k && Tidy(r, base, freereg, nactvar, k)
      ensures (old(error) ==> error) && (error ==> old(error) || |code| > MAXARG_sBx || base + 1 >= MAXSTACK) &&
          |old(code)| <= |code|
      ensures Room(error, freereg)
      ensures old(All(k, code, ts, fs, js, c0, js0, d, e, base, bad)) ==>
          All(k, code, fs, ts, js, c0, js0, r, Not(e), base, bad)
      ensures TraitsOf(code, r, fs, ts, js, k, bad) == Inverted(old(TraitsOf(code, d, ts, fs, js, k, bad))) &&
          !r.k.VNonReloc?
      ensures SameBad(c0, js0, old(bad), bad)
    {
      hide Ok, All, Negator, S, Mixes, Spoilt, SameBad;
      var v := DischargeVars(d, ts, fs, c0, js0, e, base);
      var u;
      ghost var c1, d1, jpc1, js1;
      u, c1, d1, jpc1, js1 := NegateValue(v, ts, fs, c0, js0, e, base);
      r := SwapLists(u, ts, fs, c0, js0, e, base, c1, d1, jpc1, js1);
    }

    method NegateValue(v: ExpDesc, ghost ts: seq<nat>, ghost fs: seq<nat>, ghost c0: Code, ghost js0: seq<nat>,
        ghost e: Expr, ghost base: nat)
      returns (u: ExpDesc, ghost c1: Code, ghost d1: ExpDesc, ghost jpc1: int, ghost js1: seq<nat>)
      requires Ok(c0, js0, mixed, code, jpc, js, v, ts, fs, bad) && Tidy(v, base, freereg, nactvar, k) &&
          Room(error, freereg)
      requires !v.k.VLocal? && !v.k.VGlobal?
      modifies this`code, this`error, this`jpc, this`js, this`k, this`freereg
      ensures Ok(c0, js0, mixed, code, jpc, js, u, ts, fs, bad) && Ok(c0, js0, mixed, c1, jpc1, js1, d1, ts, fs, bad) &&
          old(k) <= k
      ensures Negator(k, c1, d1, S(ts) + S(fs), js1, code, u, js) && Tidy(u, base, freereg, nactvar, k)
      ensures (old(error) ==> error) && (error ==> old(error) || |code| > MAXARG_sBx || base + 1 >= MAXSTACK) &&
          |old(code)| <= |code|
      ensures Room(error, freereg) && !u.k.VNonReloc?
      ensures old(All(k, code, ts, fs, js, c0, js0, v, e, base, bad)) ==>
          All(k, c1, ts, fs, js1, c0, js0, d1, e, base, bad)
      ensures SortOf(code, u) == Opposite(SortOf(old(code), v)) && k == old(k)
      ensures Mixes(code, js) <==> old(Mixes(code, js)) && IsConstant(SortOf(old(code), v))
    {
      hide Ok, All, Negator, S, Mixes;
      if v.k.VNil? || v.k.VFalse? {
        c1, d1, jpc1, js1 := code, v, jpc, js;
        u := v.(k := VTrue);
        NegateConst(k, c0, js0, mixed, code, jpc, js, v, ts, fs, u, bad);
      } else if v.k.VK? || v.k.VKNum? || v.k.VTrue? {
        c1, d1, jpc1, js1 := code, v, jpc, js;
        u := v.(k := VFalse);
        NegateConst(k, c0, js0, mixed, code, jpc, js, v, ts, fs, u, bad);
      } else if v.k.VJmp? {
        ComparisonReady(c0, js0, mixed, code, jpc, js, v, ts, fs, bad);
        c1, d1, jpc1, js1 := code, v, jpc, js;
        u := v;
        InvertJump(v.info);
        NegateJmp(k, c0, js0, mixed, c1, jpc, v, ts, fs, code, bad);
      } else {
        u, c1, d1, jpc1, js1 := EmitNot(v, ts, fs, c0, js0, e, base);
      }
      MixesNone(code);
    }

    method EmitNot(v: ExpDesc, ghost ts: seq<nat>, ghost fs: seq<nat>, ghost c0: Code, ghost js0: seq<nat>,
        ghost e: Expr, ghost base: nat)
      returns (u: ExpDesc, ghost c1: Code, ghost d1: ExpDesc, ghost jpc1: int, ghost js1: seq<nat>)
      requires Ok(c0, js0, mixed, code, jpc, js, v, ts, fs, bad) && Tidy(v, base, freereg, nactvar, k) &&
          Room(error, freereg)
      requires v.k.VRelocable? || v.k.VNonReloc?
      modifies this`code, this`error, this`jpc, this`js, this`k, this`freereg
      ensures Ok(c0, js0, mixed, code, jpc, js, u, ts, fs, bad) && Ok(c0, js0, mixed, c1, jpc1, js1, d1, ts, fs, bad) &&
          old(k) <= k
      ensures u.k.VRelocable? && freereg == base && Negator(k, c1, d1, S(ts) + S(fs), js1, code, u, js)
      ensures (old(error) ==> error) && (error ==> old(error) || |code| > MAXARG_sBx || base + 1 >= MAXSTACK) &&
          |old(code)| <= |code|
      ensures Room(error, freereg)
      ensures old(All(k, code, ts, fs, js, c0, js0, v, e, base, bad)) ==>
          All(k, c1, ts, fs, js1, c0, js0, d1, e, base, bad)
      ensures js == [] && k == old(k) && u.info < |code| && code[u.info].NotOp?
    {
      hide Ok, All, Negator, S;
      u := Discharge2AnyReg(v, ts, fs, c0, js0, e, base);
      FreeExp(u);
      c1, d1, jpc1, js1 := code, u, jpc, js;
      OkLists(c0, js0, mixed, code, jpc, js, d1, ts, fs, bad);
      var pc := CodeI(NotOp(0, u.info));
      u := u.(k := VRelocable, info := pc);
      NegateEmit(k, c0, js0, mixed, c1, jpc1, js1, d1, ts, fs, code, u, bad);
    }

    /** The true and the false list change places; no jump brings a value any more. */
    method SwapLists(u: ExpDesc, ghost ts: seq<nat>, ghost fs: seq<nat>, ghost c0: Code, ghost js0: seq<nat>,
        ghost e: Expr, ghost base: nat,
                     ghost c1: Code, ghost d1: ExpDesc, ghost jpc1: int, ghost js1: seq<nat>)
      returns (r: ExpDesc)
      requires Ok(c0, js0, mixed, code, jpc, js, u, ts, fs, bad) && Ok(c0, js0, mixed, c1, jpc1, js1, d1, ts, fs, bad)
      requires Negator(k, c1, d1, S(ts) + S(fs), js1, code, u, js)
      modifies this`code, this`bad
      ensures Ok(c0, js0, mixed, code, jpc, js, r, fs, ts, bad) && r == u.(t := u.f, f := u.t) && |code| == |old(code)|
      ensures All(k, c1, ts, fs, js1, c0, js0, d1, e, base, old(bad)) ==>
          All(k, code, fs, ts, js, c0, js0, r, Not(e), base, bad)
      ensures !Mixes(code, ts) && !Mixes(code, fs) && KeepsSet(old(code), code, js) &&
          SortOf(code, r) == SortOf(old(code), u)
      ensures !Spoilt(ts, bad) && !Spoilt(fs, bad) && SameBad(c0, js0, old(bad), bad)
    {
      hide *;
      OkLists(c0, js0, mixed, code, jpc, js, u, ts, fs, bad);
      ghost var c := code;
      r := u.(t := u.f, f := u.t);
      RemoveValues(r.f, ts);
      ghost var c2 := code;
      DroppedLists(c, c2, S(ts), r.t, fs);
      RemoveValues(r.t, fs);
      DropTwice(c, c2, code, S(ts), S(fs));
      SwappedSet(c0, js0, mixed, c, jpc, js, u, ts, fs, code, r, bad);
      SwappedOk(k, c0, js0, mixed, c, jpc, js, u, ts, fs, code, r, c1, d1, js1, bad);
      if All(k, c1, ts, fs, js1, c0, js0, d1, e, base, bad) {
        NegatedAll(k, c0, js0, mixed, c1, jpc1, js1, d1, ts, fs, code, js, r, e, base, bad);
        AllWeaken(k, code, fs, ts, js, c0, js0, r, Not(e), base, {}, bad - S(ts) - S(fs));
      }
      ClearedOk(c0, js0, mixed, code, jpc, js, r, fs, ts, bad);
      bad := bad - S(ts) - S(fs);
    }

    // ---------- `and`, `or`, comparisons ----------

    /** `luaK_posfix` of `and` (`truth` is false) and `or` (`truth` is true): `l` is the list through which
        the first operand leaves. */
    method PosfixLogic(truth: bool, l: int, ghost xs: seq<nat>, d: ExpDesc, ghost ts: seq<nat>, ghost fs: seq<nat>,
                       ghost c0: Code, ghost js0: seq<nat>, ghost c1: Code, ghost jpc1: int, ghost js1: seq<nat>,
                           ghost mixed1: bool, ghost bad1: set<nat>, ghost k1: seq<Value>, ghost x: Exits,
                       ghost a: Expr, ghost b: Expr, ghost base: nat)
      returns (r: ExpDesc, ghost ts': seq<nat>, ghost fs': seq<nat>)
      requires CondOk(c0, js0, mixed1, c1, jpc1, js1, l, xs, bad1) &&
          Ok(c1, js1, mixed, code, jpc, js, d, ts, fs, bad) &&
          (mixed1 ==> mixed)
      requires Tidy(d, base, freereg, nactvar, k) && Scoped(b, nactvar, k1) && k1 <= k && Room(error, freereg)
      requires Exiting(x, c1, xs, js1, k1, bad1) && SameBad(c1, js1, bad1, bad)
      modifies this`code, this`error, this`jpc, this`js
      ensures Ok(c0, js0, mixed, code, jpc, js, r, ts', fs', bad) && Tidy(r, base, freereg, nactvar, k)
      ensures Room(error, freereg)
      ensures (old(error) ==> error) && (error ==> old(error) || |code| > MAXARG_sBx) && |old(code)| <= |code|
      ensures old(All(k, code, ts, fs, js, c1, js1, d, b, base, bad)) && !mixed &&
              AllTests(k1, c1, When(truth, S(xs)), When(!truth, S(xs)), js1, c0, js0, a, base, truth, bad1) ==>
                All(k, code, ts', fs', js, c0, js0, r, if truth then Or(a, b) else And(a, b), base, bad)
      ensures TraitsOf(code, r, ts', fs', js, k, bad) == Joined(truth, x, old(TraitsOf(code, d, ts, fs, js, k, bad)))
      ensures (d.k.VNonReloc? ==> d.info < nactvar) ==> r.k.VNonReloc? ==> r.info < nactvar
    {
      hide Ok, All, AllTests, CondOk, S, When, Mixes, Spoilt, SameBad, Exiting, Appended;
      var v := DischargeVars(d, ts, fs, c1, js1, b, base);
      MixesNone(code);
      r, ts', fs' := AppendList(truth, l, xs, v, ts, fs, c0, js0, c1, jpc1, js1, mixed1, bad1, k1, x, a, b, base);
    }

    method AppendList(truth: bool, l: int, ghost xs: seq<nat>, v: ExpDesc, ghost ts: seq<nat>, ghost fs: seq<nat>,
                      ghost c0: Code, ghost js0: seq<nat>, ghost c1: Code, ghost jpc1: int, ghost js1: seq<nat>,
                          ghost mixed1: bool, ghost bad1: set<nat>, ghost k1: seq<Value>, ghost x: Exits,
                      ghost a: Expr, ghost b: Expr, ghost base: nat)
      returns (r: ExpDesc, ghost ts': seq<nat>, ghost fs': seq<nat>)
      requires CondOk(c0, js0, mixed1, c1, jpc1, js1, l, xs, bad1) &&
          Ok(c1, js1, mixed, code, jpc, js, v, ts, fs, bad) &&
          (mixed1 ==> mixed)
      requires Scoped(b, nactvar, k1) && k1 <= k && nactvar <= base
      requires Exiting(x, c1, xs, js1, k1, bad1) && SameBad(c1, js1, bad1, bad)
      modifies this`code, this`error
      ensures Ok(c0, js0, mixed, code, jpc, js, r, ts', fs', bad) && (r.k, r.info) == (v.k, v.info)
      ensures (old(error) ==> error) && (error ==> old(error) || |code| > MAXARG_sBx) && |old(code)| <= |code|
      ensures old(All(k, code, ts, fs, js, c1, js1, v, b, base, bad)) && !mixed &&
              AllTests(k1, c1, When(truth, S(xs)), When(!truth, S(xs)), js1, c0, js0, a, base, truth, bad1) ==>
                All(k, code, ts', fs', js, c0, js0, r, if truth then Or(a, b) else And(a, b), base, bad)
      ensures TraitsOf(code, r, ts', fs', js, k, bad) == Appended(truth, x, old(TraitsOf(code, v, ts, fs, js, k, bad)))
    {
      hide *;
      OkLists(c1, js1, mixed, code, jpc, js, v, ts, fs, bad);
      FirstBad(c0, js0, mixed1, c1, jpc1, js1, l, xs, truth, bad1, bad);
      PutTogether(c0, js0, mixed1, c1, jpc1, js1, l, xs, bad1, mixed, code, jpc, js, v, ts, fs, bad);
      TogetherLists(c0, js0, mixed, code, js, v, ts, fs, l, xs, bad);
      CondParts(c0, js0, mixed1, c1, jpc1, js1, l, xs, bad1);
      ghost var c := code;
      ts', fs' := if truth then ts + xs else ts, if truth then fs else fs + xs;
      if truth {
        var t := Concat(v.t, l, ts, xs);
        r := v.(t := t);
      } else {
        var f := Concat(v.f, l, fs, xs);
        r := v.(f := f);
      }
      SequenceOk(c0, js0, c1, js1, mixed, c, jpc, js, v, ts, fs, l, xs, truth, code, r, bad);
      AppendedTraits(c0, js0, mixed1, c1, jpc1, js1, l, xs, bad1, mixed, c, jpc, js, v, ts, fs, truth, code, r, k1,
          k, x, bad);
      if All(k, c, ts, fs, js, c1, js1, v, b, base, bad) && !mixed &&
          AllTests(k1, c1, When(truth, S(xs)), When(!truth, S(xs)), js1, c0, js0, a, base, truth, bad1) {
        AllTestsWeaken(k1, c1, When(truth, S(xs)), When(!truth, S(xs)), js1, c0, js0, a, base, truth, bad1, bad);
        SequenceAll(k1, k, c0, js0, c1, jpc1, js1, bad1, c, jpc, js, v, ts, fs, l, xs, truth, code, r, a, b, base,
            nactvar, bad);
      }
    }

    /** `codecomp`; the first operand is in its register or is a constant since `luaK_infix`. */
    method CodeComp(rel: Rel, cond: bool, d1: ExpDesc, v2: ExpDesc, ghost ts: seq<nat>, ghost fs: seq<nat>,
        ghost op: CompOp, ghost c0: Code, ghost js0: seq<nat>,
                    ghost c1: Code, ghost jpc1: int, ghost js1: seq<nat>, ghost mixed1: bool, ghost bad1: set<nat>,
                        ghost k1: seq<Value>,
                        ghost a: Expr, ghost b: Expr,
                    ghost base: nat, ghost base2: nat)
      returns (r: ExpDesc)
      requires Ok(c0, js0, mixed1, c1, jpc1, js1, d1, [], [], bad1) &&
          Ok(c1, js1, mixed, code, jpc, js, v2, ts, fs, bad) &&
          (mixed1 ==> mixed)
      requires InRK(d1, base, base2, nactvar) && Tidy(v2, base2, freereg, nactvar, k) && Scoped(b, nactvar, k1) &&
          k1 <= k && Room(error, freereg)
      requires (rel, cond) == Operator(op)
      modifies this`code, this`error, this`jpc, this`js, this`k, this`lasttarget, this`freereg, this`mixed
      ensures mixed == (old(mixed) || Asks(ts, fs, bad))
      ensures Ok(c0, js0, mixed, code, jpc, js, r, [], [], bad) && r.k.VJmp? && freereg == base && old(k) <= k
      ensures (old(error) ==> error) && (error ==> old(error) || |code| > MAXARG_sBx || base2 + 1 >= MAXSTACK) &&
          |old(code)| <= |code|
      ensures Room(error, freereg)
      ensures old(All(k, code, ts, fs, js, c1, js1, v2, b, base2, bad)) && !mixed && !error &&
              All(k1, c1, [], [], js1, c0, js0, d1, a, base, bad1) ==>
                All(k, code, [], [], js, c0, js0, r, Comp(op, a, b), base, bad)
      ensures (v2.k.VNonReloc? ==> v2.info < nactvar) ==> k == AsOperand(old(TraitsOf(code, v2, ts, fs, js, k, bad))).1
      ensures js == []
    {
      hide Ok, All, Scoped, Operator, AsOperand, TraitsOf;
      var d2 := Exp2RK(v2, ts, fs, c1, js1, b, base2);
      r := EmitComp(rel, cond, d1, d2, op, c0, js0, c1, jpc1, js1, mixed1, bad1, k1, a, b, base, base2);
    }

    method EmitComp(rel: Rel, cond: bool, d1: ExpDesc, d2: ExpDesc, ghost op: CompOp, ghost c0: Code,
        ghost js0: seq<nat>, ghost c1: Code, ghost jpc1: int,
                    ghost js1: seq<nat>, ghost mixed1: bool, ghost bad1: set<nat>, ghost k1: seq<Value>,
                        ghost a: Expr, ghost b: Expr,
                        ghost base: nat, ghost base2: nat)
      returns (r: ExpDesc)
      requires Ok(c0, js0, mixed1, c1, jpc1, js1, d1, [], [], bad1) &&
          Ok(c1, js1, mixed, code, jpc, js, d2, [], [], bad) &&
          (mixed1 ==> mixed)
      requires InRK(d1, base, base2, nactvar) && InRK(d2, base2, freereg, nactvar) && Scoped(b, nactvar, k1) &&
          k1 <= k && Room(error, freereg)
      requires (rel, cond) == Operator(op)
      modifies this`code, this`error, this`jpc, this`js, this`freereg
      ensures Ok(c0, js0, mixed, code, jpc, js, r, [], [], bad) && r.k.VJmp? && freereg == base
      ensures (old(error) ==> error) && (error ==> old(error) || |code| > MAXARG_sBx) && |old(code)| <= |code|
      ensures Room(error, freereg)
      ensures old(All(k, code, [], [], js, c1, js1, d2, b, base2, bad)) && !mixed && !error &&
              All(k1, c1, [], [], js1, c0, js0, d1, a, base, bad1) ==>
                All(k, code, [], [], js, c0, js0, r, Comp(op, a, b), base, bad)
      ensures js == []
    {
      hide *;
      RelopOrdered(rel, cond, op, Operand(d1), Operand(d2));
      OkLists(c0, js0, mixed1, c1, jpc1, js1, d1, [], [], bad1);
      OkLists(c1, js1, mixed, code, jpc, js, d2, [], [], bad);
      NoHeads(c1, d1);
      ghost var free := freereg;
      FreeOperands(d1, d2, base, base2);
      ghost var c, l, s, failed := code, jpc, js, error;
      var j;
      if !cond && rel != Eq {                // `>` and `>=` become `<` and `<=`
        j := CondJump(Relop(rel, true, Operand(d2), Operand(d1)));
      } else {
        j := CondJump(Relop(rel, cond, Operand(d1), Operand(d2)));
      }
      RoomStays(failed, error, freereg);
      r := d1.(k := VJmp, info := j);
      ComparedDone(k1, k, c0, js0, mixed1, c1, jpc1, js1, d1, bad1, mixed, c, l, s, d2, op, code, r, a, b, base,
          base2, free, nactvar, bad);
    }

    /** `freeexp` of both operands, the second first. */
    method FreeOperands(d1: ExpDesc, d2: ExpDesc, ghost base: nat, ghost base2: nat)
      requires InRK(d1, base, base2, nactvar) && InRK(d2, base2, freereg, nactvar) && Room(error, freereg)
      modifies this`freereg
      ensures freereg == base && Room(error, freereg) && (!error ==> old(freereg) < MAXSTACK)
    {
      FreeExp(d2);
      FreeExp(d1);
    }

    // ---------- Expressions ----------

    /** `subexpr`: the code for an expression, and a descriptor of its value. */
    method SubExpr(e: Expr) returns (d: ExpDesc, ghost ts: seq<nat>, ghost fs: seq<nat>)
      requires Ready() && Room(error, freereg) && Scoped(e, nactvar, k)
      modifies this
      ensures Ok(old(code), old(js), mixed, code, jpc, js, d, ts, fs, bad)
      ensures SameBad(old(code), old(js), old(bad), bad)
      ensures old(k) <= k && Tidy(d, old(freereg), freereg, nactvar, k) && Room(error, freereg)
      ensures (old(error) ==> error) && (error ==>
          old(error) || |code| > MAXARG_sBx || old(freereg) + Need(e) >= MAXSTACK) && |old(code)| <= |code|
      ensures var a := Trace(e, Mixes(old(code), old(js)), old(k));
              mixed == (old(mixed) || a.1) && TraitsOf(code, d, ts, fs, js, k, bad) == a.0
      ensures d.k.VNonReloc? ==> d.info < nactvar
      ensures !error && !mixed ==> All(k, code, ts, fs, js, old(code), old(js), d, e, old(freereg), bad)
      decreases e, 1
    {
      ExprParts(e, nactvar, k);
      hide *;
      match e
      case Not(x) => d, ts, fs := Negation(x);
      case And(x, y) => d, ts, fs := Logic(false, x, y);
      case Or(x, y) => d, ts, fs := Logic(true, x, y);
      case Comp(op, x, y) =>
        d := Compare(op, x, y);
        ts, fs := [], [];
      case _ =>
        d, ts, fs := Simple(e), [], [];
        SimpleDone(k, code, jpc, js, mixed, d, e, freereg, nactvar, bad);
        SimpleTraits(code, js, k, d, e, bad);
        SameBadRefl(code, js, bad);
    }

    method Negation(x: Expr) returns (d: ExpDesc, ghost ts: seq<nat>, ghost fs: seq<nat>)
      requires Ready() && Room(error, freereg) && Scoped(x, nactvar, k)
      modifies this
      ensures Ok(old(code), old(js), mixed, code, jpc, js, d, ts, fs, bad)
      ensures SameBad(old(code), old(js), old(bad), bad)
      ensures old(k) <= k && Tidy(d, old(freereg), freereg, nactvar, k) && Room(error, freereg)
      ensures (old(error) ==> error) && (error ==>
          old(error) || |code| > MAXARG_sBx || old(freereg) + Need(x) >= MAXSTACK) && |old(code)| <= |code|
      ensures var a := Trace(Not(x), Mixes(old(code), old(js)), old(k));
              mixed == (old(mixed) || a.1) && TraitsOf(code, d, ts, fs, js, k, bad) == a.0
      ensures !d.k.VNonReloc?
      ensures !error && !mixed ==> All(k, code, ts, fs, js, old(code), old(js), d, Not(x), old(freereg), bad)
      decreases x, 2
    {
      hide Ok, All, Scoped, Tidy, IsList, Pending, Whole, Mixes, TraitsOf, Inverted, SameBad;
      ghost var c0, js0, base, bad0 := code, js, freereg, bad;
      var v, ts1, fs1 := SubExpr(x);
      ghost var bad1 := bad;
      d := CodeNot(v, ts1, fs1, c0, js0, x, base);
      ts, fs := fs1, ts1;
      SameBadTrans(c0, js0, bad0, bad1, bad);
    }

    method Logic(or_: bool, x: Expr, y: Expr) returns (d: ExpDesc, ghost ts: seq<nat>, ghost fs: seq<nat>)
      requires Ready() && Room(error, freereg) && Scoped(x, nactvar, k) && Scoped(y, nactvar, k)
      modifies this
      ensures Ok(old(code), old(js), mixed, code, jpc, js, d, ts, fs, bad)
      ensures SameBad(old(code), old(js), old(bad), bad)
      ensures old(k) <= k && Tidy(d, old(freereg), freereg, nactvar, k) && Room(error, freereg)
      ensures (old(error) ==> error) && (error ==>
          old(error) || |code| > MAXARG_sBx || old(freereg) + Need(x) >= MAXSTACK || old(freereg) + Need(y) >= MAXSTACK)
      ensures |old(code)| <= |code|
      ensures var a := Trace(if or_ then Or(x, y) else And(x, y), Mixes(old(code), old(js)), old(k));
              mixed == (old(mixed) || a.1) && TraitsOf(code, d, ts, fs, js, k, bad) == a.0
      ensures d.k.VNonReloc? ==> d.info < nactvar
      ensures !error && !mixed ==> All(k, code, ts, fs, js, old(code), old(js), d, if or_ then Or(x, y)
          else And(x, y), old(freereg), bad)
      decreases if or_ then Or(x, y) else And(x, y), 0
    {
      hide *;
      ghost var c0, js0, base, k0, bad0 := code, js, freereg, k, bad;
      ghost var a := Trace(x, Mixes(code, js), k);
      ghost var out := Leave(a.0, or_);
      var l, xs := FirstOperand(or_, x);
      ExitingIs(out, code, xs, js, k, bad);
      ghost var c1, jpc1, js1, mixed1, k1, bad1 := code, jpc, js, mixed, k, bad;
      ScopedMore(y, nactvar, k0, k1);
      var v2, ts2, fs2 := SubExpr(y);
      d, ts, fs := PosfixLogic(or_, l, xs, v2, ts2, fs2, c0, js0, c1, jpc1, js1, mixed1, bad1, k1, out, x, y, base);
      SameBadOn(c0, js0, mixed1, c1, jpc1, js1, l, xs, bad0, bad1, bad);
      TraceLogic(or_, x, y, Mixes(c0, js0), k0);
    }

    /** The first operand, and `luaK_infix`. */
    method FirstOperand(or_: bool, x: Expr) returns (l: int, ghost xs: seq<nat>)
      requires Ready() && Room(error, freereg) && Scoped(x, nactvar, k)
      modifies this
      ensures CondOk(old(code), old(js), mixed, code, jpc, js, l, xs, bad) && Ready()
      ensures SameBad(old(code), old(js), old(bad), bad)
      ensures old(k) <= k && freereg == old(freereg) && Room(error, freereg)
      ensures (old(error) ==> error) && (error ==>
          old(error) || |code| > MAXARG_sBx || old(freereg) + Need(x) >= MAXSTACK) && |old(code)| <= |code|
      ensures var a := Trace(x, Mixes(old(code), old(js)), old(k)); var out := Leave(a.0, or_);
              mixed == (old(mixed) || a.1) && Exiting(out, code, xs, js, k, bad)
      ensures !error && !mixed ==> AllTests(k, code, When(or_, S(xs)), When(!or_, S(xs)), js, old(code), old(js), x,
          old(freereg), or_, bad)
      decreases x, 2
    {
      hide Ok, All, AllTests, CondOk, S, When, Scoped, Tidy, IsList, Pending, Whole, Mixes, Leave, Trace, Exiting,
          TraitsOf, SameBad;
      ghost var c0, js0, base, bad0 := code, js, freereg, bad;
      var v, ts, fs := SubExpr(x);
      ghost var bad1 := bad;
      if or_ {
        l, xs := GoIfFalse(v, ts, fs, c0, js0, x, base);
      } else {
        l, xs := GoIfTrue(v, ts, fs, c0, js0, x, base);
      }
      CondParts(c0, js0, mixed, code, jpc, js, l, xs, bad);
      SameBadTrans(c0, js0, bad0, bad1, bad);
    }

    method Compare(op: CompOp, x: Expr, y: Expr) returns (d: ExpDesc)
      requires Ready() && Room(error, freereg) && Scoped(x, nactvar, k) && Scoped(y, nactvar, k)
      modifies this
      ensures Ok(old(code), old(js), mixed, code, jpc, js, d, [], [], bad)
      ensures SameBad(old(code), old(js), old(bad), bad)
      ensures old(k) <= k && Tidy(d, old(freereg), freereg, nactvar, k) && Room(error, freereg)
      ensures (old(error) ==> error) && (error ==>
          old(error) || |code| > MAXARG_sBx || old(freereg) + Max(Need(x), 1 + Need(y)) >= MAXSTACK) &&
          |old(code)| <= |code|
      ensures var a := Trace(Comp(op, x, y), Mixes(old(code), old(js)), old(k));
              d.k.VJmp? && mixed == (old(mixed) || a.1) && TraitsOf(code, d, [], [], js, k, bad) == a.0
      ensures !error && !mixed ==> All(k, code, [], [], js, old(code), old(js), d, Comp(op, x, y), old(freereg), bad)
      decreases Comp(op, x, y), 0
    {
      hide *;
      ghost var c0, js0, base, k0, bad0 := code, js, freereg, k, bad;
      var d1 := LeftOperand(x);
      OperandNeeds(x, y, d1, base, freereg, nactvar);
      ghost var c1, jpc1, js1, mixed1, k1, bad1, base2 := code, jpc, js, mixed, k, bad, freereg;
      ScopedMore(y, nactvar, k0, k1);
      var v2, ts2, fs2 := SubExpr(y);
      AskedIs(code, v2, ts2, fs2, js, k, bad);
      var rel, cond := Operator(op).0, Operator(op).1;
      d := CodeComp(rel, cond, d1, v2, ts2, fs2, op, c0, js0, c1, jpc1, js1, mixed1, bad1, k1, x, y, base, base2);
      SameBadOver(c0, js0, mixed1, c1, jpc1, js1, d1, bad0, bad1, bad);
      TraceComp(op, x, y, Mixes(c0, js0), k0);
      ComparisonDone(code, d, freereg, nactvar, k, bad);
    }

    /** The first operand of a comparison, and `luaK_infix`. */
    method LeftOperand(x: Expr) returns (d: ExpDesc)
      requires Ready() && Room(error, freereg) && Scoped(x, nactvar, k)
      modifies this
      ensures Ok(old(code), old(js), mixed, code, jpc, js, d, [], [], bad) && Ready()
      ensures SameBad(old(code), old(js), old(bad), bad)
      ensures old(k) <= k && InRK(d, old(freereg), freereg, nactvar) && Room(error, freereg)
      ensures (old(error) ==> error) && (error ==>
          old(error) || |code| > MAXARG_sBx || old(freereg) + Need(x) >= MAXSTACK) && |old(code)| <= |code|
      ensures var a := Trace(x, Mixes(old(code), old(js)), old(k));
              mixed == (old(mixed) || a.1 || Asked(a.0)) && (Mixes(code, js), k) == AsOperand(a.0)
      ensures !error && !mixed ==> All(k, code, [], [], js, old(code), old(js), d, x, old(freereg), bad)
      decreases x, 2
    {
      hide Ok, All, S, Scoped, Mixes, AsOperand, Trace, IsList, Pending, Whole, Spoilt, SameBad;
      ghost var c0, js0, base := code, js, freereg;
      var v, ts, fs := SubExpr(x);
      d := Exp2RK(v, ts, fs, c0, js0, x, base);
      OkReady(c0, js0, mixed, code, jpc, js, d, [], [], bad);
    }

    /** The code for an expression whose value goes to the next register, ready for what follows. */
    method Compile(e: Expr) returns (reg: nat)
      requires Ready() && Room(error, freereg) && Scoped(e, nactvar, k)
      modifies this
      ensures reg == old(freereg) && freereg == reg + 1 && old(k) <= k && Ready() && |code| >= |old(code)|
      ensures (old(error) ==> error) && (error ==> old(error) || |code| > MAXARG_sBx || reg + Need(e) >= MAXSTACK)
      ensures mixed == (old(mixed) || Loses(e, Mixes(old(code), old(js)), old(k)))
      ensures !error && !mixed ==>
          freereg < MAXSTACK &&
              forall w: World, m: Machine, s: Entry {:trigger Start(w, code, {}, {}, |old(code)|, s, m)} ::
                k <= w.consts && Enters(s, S(old(js))) ==>
                  Delivers(m, reg, Eval(w, e, m.regs, m.log), Start(w, code, {}, {}, |old(code)|, s, m))
    {
      hide Ok, All, Scoped, Run, Start, Eval, Delivers, IsList, S, Pending, Whole, Mixes, Trace, Spoilt;
      ghost var c0, js0 := code, js;
      reg := freereg;
      var d, ts, fs := SubExpr(e);
      var r := Exp2NextReg(d, ts, fs, c0, js0, e, reg);
      OkReady(c0, js0, mixed, code, jpc, js, r, [], [], bad);
      ghost var c, l, s := code, jpc, js;
      DischargeJpc();
      Delivered(k, c0, js0, mixed, c, l, s, r, code, e, reg, bad);
    }
  }

  /** The run ends with the value in its register, and leaves the registers below it alone. */
  ghost predicate Delivers(m: Machine, reg: nat, r: Result, o: Outcome) {
    o.Done? && Reg(o.m, reg) == r.value && o.m.log == r.log && Keeps(m, o.m, reg)
  }

  lemma Delivered(k: seq<Value>, c0: Code, js0: seq<nat>, loose: bool, c: Code, jpc: int, js: seq<nat>, r: ExpDesc,
      c2: Code, e: Expr, reg: nat, bad: set<nat>)
    requires Ok(c0, js0, loose, c, jpc, js, r, [], [], bad) && r.k.VNonReloc? && r.info == reg && Flushed(c, S(js), c2)
    ensures IsList(c2, NO_JUMP, []) && Pending(c2, S([])) && Whole(c2) && |c2| >= |c0| && BadOk(c2, S([]), bad)
    ensures All(k, c, [], [], js, c0, js0, r, e, reg, bad) ==>
              forall w: World, m: Machine, s: Entry {:trigger Start(w, c2, {}, {}, |c0|, s, m)} ::
                k <= w.consts && Enters(s, S(js0)) ==> Delivers(m, reg, Eval(w, e, m.regs, m.log),
                    Start(w, c2, {}, {}, |c0|, s, m))
  {
    OkParts(c0, js0, loose, c, jpc, js, r, [], [], bad);
    EmptyList(c2);
    FlushGrew(c, S(js), c2, []);
    assert c2 + [] == c2;
    OkReady(c0, js0, loose, c, jpc, js, r, [], [], bad);
    GrewWhole(c, S(js), c2);
    if All(k, c, [], [], js, c0, js0, r, e, reg, bad) {
      forall w: World, m: Machine, s: Entry | k <= w.consts && Enters(s, S(js0))
        ensures Delivers(m, reg, Eval(w, e, m.regs, m.log), Start(w, c2, {}, {}, |c0|, s, m))
      {
        assert Means(w, c, S([]), S([]), S(js), |c0|, S(js0), r, e, reg, bad);
        hide Ok, Flushed, IsList, Grew;
        DeliveredRun(w, c, S(js), c2, |c0|, S(js0), r, e, reg, m, s, bad);
      }
    }
  }

  lemma DeliveredRun(w: World, c: Code, js: set<nat>, c2: Code, p: nat, ins: set<nat>, r: ExpDesc, e: Expr, reg: nat,
      m: Machine, s: Entry, bad: set<nat>)
    requires Means(w, c, {}, {}, js, p, ins, r, e, reg, bad) && r.k.VNonReloc? && r.info == reg && Enters(s, ins)
    requires Grew(c, js, c2, {}) && |c2| == |c| && Pending(c, js)
    ensures Delivers(m, reg, Eval(w, e, m.regs, m.log), Start(w, c2, {}, {}, p, s, m))
  {
    hide Eval;
    NoJumps();
    var o := Start(w, Body(c, r), {} + {}, js, p, s, m);
    assert Ends(w, c, {}, {}, r, reg, m, Eval(w, e, m.regs, m.log), o, bad);
    StartOn(w, c, {}, js, c2, {}, {}, p, s, m);
  }

  /** `luaK_posfix`: a comparison operator as an instruction and the result it asks for. */
  function Operator(op: CompOp): (Rel, bool) {
    match op
    case EQ => (Eq, true)
    case NE => (Eq, false)
    case LT => (Lt, true)
    case LE => (Le, true)
    case GT => (Lt, false)
    case GE => (Le, false)
  }

  /** `simpleexp`, and variables; the caller excludes operators. */
  function Simple(e: Expr): ExpDesc {
    match e
    case Null => ExpDesc(VNil, 0, 0, NO_JUMP, NO_JUMP)
    case True => ExpDesc(VTrue, 0, 0, NO_JUMP, NO_JUMP)
    case False => ExpDesc(VFalse, 0, 0, NO_JUMP, NO_JUMP)
    case Str(k) => ExpDesc(VK, k, 0, NO_JUMP, NO_JUMP)
    case Num(n) => ExpDesc(VKNum, 0, n, NO_JUMP, NO_JUMP)
    case Local(r) => ExpDesc(VLocal, r, 0, NO_JUMP, NO_JUMP)
    case Global(k) => ExpDesc(VGlobal, k, 0, NO_JUMP, NO_JUMP)
    case _ => ExpDesc(VNil, 0, 0, NO_JUMP, NO_JUMP)
  }

  predicate IsSimple(e: Expr) {
    !e.Not? && !e.And? && !e.Or? && !e.Comp?
  }

  lemma SimpleOk(c: Code, jpc: int, js: seq<nat>, loose: bool, d: ExpDesc, bad: set<nat>)
    requires IsList(c, jpc, js) && Pending(c, S(js)) && Whole(c) && Settled(d) && d.t == d.f == NO_JUMP
    requires BadOk(c, S(js), bad)
    ensures Ok(c, js, loose, c, jpc, js, d, [], [], bad)
  {
    EmptyList(c);
    NoJumps();
    assert S([]) + S([]) + S(js) == S(js);
    assert forall i :: 0 <= i < |c| ==> FrameAt(c, S(js), c, S([]) + S([]), S(js), i, loose);
  }

  lemma SimpleAll(k: seq<Value>, c: Code, js: seq<nat>, d: ExpDesc, e: Expr, base: nat, bad: set<nat>)
    requires IsSimple(e) && d == Simple(e) && Pending(c, S(js))
    ensures All(k, c, [], [], js, c, js, d, e, base, bad)
  {
    EmptyList(c);
    NoJumps();
    forall w: World | k <= w.consts ensures Means(w, c, {}, {}, S(js), |c|, S(js), d, e, base, bad) {
      forall m: Machine, s: Entry | Enters(s, S(js))
        ensures Ends(w, c, {}, {}, d, base, m, Eval(w, e, m.regs, m.log),
            Start(w, Body(c, d), {} + {}, S(js), |c|, s, m), bad)
      {
        assert Start(w, c, {}, S(js), |c|, s, m) == Done(m);
      }
    }
  }

  lemma SimpleDone(k: seq<Value>, c: Code, jpc: int, js: seq<nat>, loose: bool, d: ExpDesc, e: Expr, base: nat,
      nactvar: nat, bad: set<nat>)
    requires IsSimple(e) && d == Simple(e) && Scoped(e, nactvar, k) && nactvar <= base
    requires IsList(c, jpc, js) && Pending(c, S(js)) && Whole(c) && BadOk(c, S(js), bad)
    ensures Ok(c, js, loose, c, jpc, js, d, [], [], bad) && All(k, c, [], [], js, c, js, d, e, base, bad)
    ensures Tidy(d, base, base, nactvar, k)
  {
    SimpleOk(c, jpc, js, loose, d, bad);
    SimpleAll(k, c, js, d, e, base, bad);
  }

  lemma SimpleTraits(c: Code, js: seq<nat>, k: seq<Value>, d: ExpDesc, e: Expr, bad: set<nat>)
    requires IsSimple(e) && d == Simple(e)
    ensures Trace(e, Mixes(c, js), k) == (TraitsOf(c, d, [], [], js, k, bad), false) && !d.k.VNonReloc?
  {
    MixesNone(c);
    SpoiltNone(bad);
  }

  lemma ExprParts(e: Expr, n: nat, k: seq<Value>)
    requires Scoped(e, n, k)
    ensures e.Not? ==> Scoped(e.e, n, k) && Need(e) == Need(e.e)
    ensures e.And? || e.Or? ==>
              && Scoped(e.l, n, k) && Scoped(e.r_, n, k) && Need(e.l) <= Need(e) && Need(e.r_) <= Need(e)
    ensures e.Comp? ==>
              && Scoped(e.l, n, k) && Scoped(e.r_, n, k) && Max(Need(e.l), 1 + Need(e.r_)) <= Need(e)
    ensures IsSimple(e) == !(e.Not? || e.And? || e.Or? || e.Comp?)
  {
  }

  lemma {:induction false} ScopedMore(e: Expr, n: nat, k: seq<Value>, k': seq<Value>)
    requires Scoped(e, n, k) && k <= k'
    ensures Scoped(e, n, k')
  {
    match e
    case Not(x) => ScopedMore(x, n, k, k');
    case And(x, y) => ScopedMore(x, n, k, k'); ScopedMore(y, n, k, k');
    case Or(x, y) => ScopedMore(x, n, k, k'); ScopedMore(y, n, k, k');
    case Comp(_, x, y) => ScopedMore(x, n, k, k'); ScopedMore(y, n, k, k');
    case _ =>
  }

  lemma OkReady(c0: Code, js0: seq<nat>, loose: bool, c: Code, jpc: int, js: seq<nat>, d: ExpDesc, ts: seq<nat>,
      fs: seq<nat>, bad: set<nat>)
    requires Ok(c0, js0, loose, c, jpc, js, d, ts, fs, bad)
    ensures IsList(c, jpc, js) && Pending(c, S(js)) && Whole(c) && BadOk(c, S(js), bad)
  {
    OkParts(c0, js0, loose, c, jpc, js, d, ts, fs, bad);
  }

  lemma AskedIs(c: Code, d: ExpDesc, ts: seq<nat>, fs: seq<nat>, js: seq<nat>, k: seq<Value>, bad: set<nat>)
    ensures Asked(TraitsOf(c, d, ts, fs, js, k, bad)) == Asks(ts, fs, bad)
  {
  }

  lemma ComparisonDone(c: Code, d: ExpDesc, base: nat, n: nat, k: seq<Value>, bad: set<nat>)
    requires d.k.VJmp? && n <= base
    ensures Tidy(d, base, base, n, k) && TraitsOf(c, d, [], [], [], k, bad) == Plainly(Comparison, false, k)
  {
    MixesNone(c);
    SpoiltNone(bad);
  }

  lemma OperandNeeds(x: Expr, y: Expr, d: ExpDesc, base: nat, base2: nat, n: nat)
    requires InRK(d, base, base2, n)
    ensures n <= base && base2 <= base + 1
    ensures Need(x) <= Max(Need(x), 1 + Need(y)) && 1 + Need(y) <= Max(Need(x), 1 + Need(y)) && Need(y) >= 1
  {
  }

  lemma RoomStays(error: bool, error': bool, freereg: nat)
    requires Room(error, freereg) && (error ==> error')
    ensures Room(error', freereg)
  {
  }

  /** `>` and `>=` exchange their operands. */
  lemma RelopOrdered(rel: Rel, cond: bool, op: CompOp, o1: nat, o2: nat)
    requires (rel, cond) == Operator(op)
    ensures RelopFor(op, o1, o2) == if !cond && rel != Eq then Relop(rel, true, o2, o1) else Relop(rel, cond, o1, o2)
  {
  }

  lemma NoHeads(c: Code, d: ExpDesc)
    requires IsList(c, d.t, []) && IsList(c, d.f, [])
    ensures d.t == d.f == NO_JUMP
  {
  }

  lemma ComparedDone(k1: seq<Value>, k: seq<Value>, c0: Code, js0: seq<nat>, loose1: bool, c1: Code, jpc1: int,
      js1: seq<nat>, d1: ExpDesc, bad1: set<nat>, loose: bool, c: Code, jpc: int, js: seq<nat>, d2: ExpDesc,
      op: CompOp, c2: Code, r: ExpDesc, a: Expr, b: Expr, base: nat, base2: nat, base3: nat, n: nat, bad: set<nat>)
    requires Ok(c0, js0, loose1, c1, jpc1, js1, d1, [], [], bad1) &&
        Ok(c1, js1, loose, c, jpc, js, d2, [], [], bad) && (loose1 ==> loose)
    requires InRK(d1, base, base2, n) && InRK(d2, base2, base3, n) && Scoped(b, n, k1) && k1 <= k
    requires |c2| == |c| + 2 && Flushed(c, S(js), c2[..|c|]) && c2[|c|] == RelopFor(op, Operand(d1), Operand(d2)) &&
        c2[|c| + 1] == Jmp(NO_JUMP)
    requires r.k.VJmp? && r.info == |c| + 1 && r.t == r.f == NO_JUMP
    ensures Ok(c0, js0, loose, c2, NO_JUMP, [], r, [], [], bad)
    ensures All(k, c, [], [], js, c1, js1, d2, b, base2, bad) && !loose && base3 < MAXSTACK &&
            All(k1, c1, [], [], js1, c0, js0, d1, a, base, bad1) ==>
              All(k, c2, [], [], [], c0, js0, r, Comp(op, a, b), base, bad)
  {
    OkReady(c1, js1, loose, c, jpc, js, d2, [], [], bad);
    hide Ok, All, Scoped, Flushed;
    OkClean(c0, js0, loose1, c1, jpc1, js1, d1, bad1);
    OkClean(c1, js1, loose, c, jpc, js, d2, bad);
    OperandsOk(c0, js0, loose1, c1, jpc1, js1, d1, loose, c, jpc, js, d2, {});
    ComparedOk(c0, js0, loose, c, jpc, js, d2, c2, r, {});
    if All(k, c, [], [], js, c1, js1, d2, b, base2, bad) && !loose && base3 < MAXSTACK &&
        All(k1, c1, [], [], js1, c0, js0, d1, a, base, bad1) {
      AllWeaken(k, c, [], [], js, c1, js1, d2, b, base2, bad, {});
      AllWeaken(k1, c1, [], [], js1, c0, js0, d1, a, base, bad1, {});
      ComparedAll(k1, k, c0, js0, c1, jpc1, js1, d1, c, jpc, js, d2, op, c2, r, a, b, base, base2, base3, n, {});
      AllWeaken(k, c2, [], [], [], c0, js0, r, Comp(op, a, b), base, {}, bad);
    }
    OkWeaken(c0, js0, loose, c2, NO_JUMP, [], r, [], [], {}, bad);
  }

  /** Without lists, no misplaced value matters. */
  lemma OkClean(c0: Code, js0: seq<nat>, loose: bool, c: Code, jpc: int, js: seq<nat>, d: ExpDesc, bad: set<nat>)
    requires Ok(c0, js0, loose, c, jpc, js, d, [], [], bad)
    ensures Ok(c0, js0, loose, c, jpc, js, d, [], [], {})
  {
    OkWeaken(c0, js0, loose, c, jpc, js, d, [], [], bad, {});
  }

  lemma AppendedTraits(c0: Code, js0: seq<nat>, loose1: bool, c1: Code, jpc1: int, js1: seq<nat>, l: int,
      xs: seq<nat>, bad1: set<nat>, loose: bool, c: Code, jpc: int, js: seq<nat>, d: ExpDesc, ts: seq<nat>,
      fs: seq<nat>, truth: bool, c2: Code, r: ExpDesc, k1: seq<Value>, k: seq<Value>, x: Exits, bad: set<nat>)
    requires CondOk(c0, js0, loose1, c1, jpc1, js1, l, xs, bad1) && Ok(c1, js1, loose, c, jpc, js, d, ts, fs, bad) &&
        Exiting(x, c1, xs, js1, k1, bad1)
    requires Together(c0, js0, loose, c, js, d, ts, fs, l, xs, bad) && (Spoilt(xs, bad) <==> Spoilt(xs, bad1))
    requires SameButJumps(c, c2, S(if truth then ts else fs)) && r == if truth then d.(t := r.t) else d.(f := r.f)
    ensures TraitsOf(c2, r, if truth then ts + xs else ts, if truth then fs else fs + xs, js, k, bad) ==
        Appended(truth, x, TraitsOf(c, d, ts, fs, js, k, bad))
  {
    hide Ok, CondOk, Together, AreJumps, SameButJumps, Mixes, Spoilt, S;
    OkJumps(c1, js1, loose, c, jpc, js, d, ts, fs, bad);
    OkInfo(c1, js1, loose, c, jpc, js, d, ts, fs, bad);
    KeptBefore(c0, js0, loose1, c1, jpc1, js1, l, xs, bad1, loose, c, jpc, js, d, ts, fs, bad);
    TogetherJumps(c0, js0, loose, c, js, d, ts, fs, l, xs, bad);
    var p := if truth then ts else fs;
    AppendedSet(c, c2, S(p), d, ts, fs, xs, js);
    MixesBoth(c2, p, xs);
    SpoiltBoth(p, xs, bad);
  }

  /** The jumps of the first operand through the code of the second. */
  lemma KeptBefore(c0: Code, js0: seq<nat>, loose1: bool, c1: Code, jpc1: int, js1: seq<nat>, l: int, xs: seq<nat>,
      bad1: set<nat>, loose: bool, c: Code, jpc: int, js: seq<nat>, d: ExpDesc, ts: seq<nat>, fs: seq<nat>,
      bad: set<nat>)
    requires CondOk(c0, js0, loose1, c1, jpc1, js1, l, xs, bad1) && Ok(c1, js1, loose, c, jpc, js, d, ts, fs, bad)
    ensures KeepsSet(c1, c, xs)
  {
    CondParts(c0, js0, loose1, c1, jpc1, js1, l, xs, bad1);
    OkOpen(c1, js1, loose, c, jpc, js, d, ts, fs, bad);
    PendingJumps(c1, S(xs) + S(js1));
    hide Ok, CondOk, Frame, IsList;
    SetFrame(c1, S(js1), c, S(ts) + S(fs), S(js), loose, xs);
  }

  lemma AppendedSet(c: Code, c2: Code, p: set<nat>, d: ExpDesc, ts: seq<nat>, fs: seq<nat>, xs: seq<nat>, js: seq<nat>)
    requires SameButJumps(c, c2, p) && AreJumps(c, S(ts)) && AreJumps(c, S(fs)) && AreJumps(c, S(xs)) &&
        AreJumps(c, S(js))
    requires d.k.VRelocable? ==> d.info < |c|
    ensures KeepsSet(c, c2, ts) && KeepsSet(c, c2, fs) && KeepsSet(c, c2, xs) && KeepsSet(c, c2, js) &&
        SortOf(c2, d) == SortOf(c, d)
  {
    SetJumps(c, c2, p, ts);
    SetJumps(c, c2, p, fs);
    SetJumps(c, c2, p, xs);
    SetJumps(c, c2, p, js);
    assert d.k.VRelocable? ==> c2[d.info] == c2[d.info];
  }

  lemma TogetherJumps(c0: Code, js0: seq<nat>, loose: bool, c: Code, js: seq<nat>, d: ExpDesc, ts: seq<nat>,
      fs: seq<nat>, l: int, xs: seq<nat>, bad: set<nat>)
    requires Together(c0, js0, loose, c, js, d, ts, fs, l, xs, bad)
    ensures AreJumps(c, S(xs))
  {
    PendingJumps(c, S(ts) + S(fs) + S(xs) + S(js));
  }

  lemma ExitingIs(x: Exits, c: Code, xs: seq<nat>, js: seq<nat>, k: seq<Value>, bad: set<nat>)
    requires Exiting(x, c, xs, js, k, bad)
    ensures x.here == Mixes(c, js) && x.consts == k
  {
  }

  lemma TraceLogic(or_: bool, x: Expr, y: Expr, here: bool, k: seq<Value>)
    ensures var a := Trace(x, here, k); var out := Leave(a.0, or_); var b := Trace(y, out.here, out.consts);
            Trace(if or_ then Or(x, y) else And(x, y), here, k) == (Joined(or_, out, b.0), a.1 || b.1)
  {
  }

  lemma TraceComp(op: CompOp, x: Expr, y: Expr, here: bool, k: seq<Value>)
    ensures var a := Trace(x, here, k); var o := AsOperand(a.0); var b := Trace(y, o.0, o.1);
            Trace(Comp(op, x, y), here, k) == (Plainly(Comparison, false, AsOperand(b.0).1),
              a.1 || Asked(a.0) || b.1 || Asked(b.0))
  {
  }

  lemma TogetherLists(c0: Code, js0: seq<nat>, loose: bool, c: Code, js: seq<nat>, d: ExpDesc, ts: seq<nat>,
      fs: seq<nat>, l: int, xs: seq<nat>, bad: set<nat>)
    requires Together(c0, js0, loose, c, js, d, ts, fs, l, xs, bad)
    ensures IsList(c, l, xs) && S(ts) !! S(xs) && S(fs) !! S(xs)
  {
  }

  lemma SwappedOk(k: seq<Value>, c0: Code, js0: seq<nat>, loose: bool, c: Code, jpc: int, js: seq<nat>, u: ExpDesc,
      ts: seq<nat>, fs: seq<nat>,
                  c2: Code, r: ExpDesc, c1: Code, d1: ExpDesc, js1: seq<nat>, bad: set<nat>)
    requires Ok(c0, js0, loose, c, jpc, js, u, ts, fs, bad) && Negator(k, c1, d1, S(ts) + S(fs), js1, c, u, js)
    requires Dropped(c, c2, S(ts) + S(fs)) && r == u.(t := u.f, f := u.t)
    ensures Ok(c0, js0, loose, c2, jpc, js, r, fs, ts, bad) && Negator(k, c1, d1, S(ts) + S(fs), js1, c2, r, js)
    ensures forall j :: j in S(ts) + S(fs) ==> !IsSet(c2, j)
  {
    OkParts(c0, js0, loose, c, jpc, js, u, ts, fs, bad);
    OkInfo(c0, js0, loose, c, jpc, js, u, ts, fs, bad);
    hide Ok, Negator, Dropped, Pending, S;
    assert S(fs) + S(ts) == S(ts) + S(fs);
    DroppedOk(c0, js0, loose, c, jpc, js, u, ts, fs, c2, r, bad);
    DroppedPending(c, c2, S(ts) + S(fs), S(ts) + S(fs));
    DropNegator(k, c1, d1, S(ts) + S(fs), js1, c, u, js, c2, r);
  }

  lemma SwappedSet(c0: Code, js0: seq<nat>, loose: bool, c: Code, jpc: int, js: seq<nat>, u: ExpDesc, ts: seq<nat>,
      fs: seq<nat>, c2: Code, r: ExpDesc, bad: set<nat>)
    requires Ok(c0, js0, loose, c, jpc, js, u, ts, fs, bad) && Dropped(c, c2, S(ts) + S(fs)) &&
        r == u.(t := u.f, f := u.t)
    ensures !Mixes(c2, ts) && !Mixes(c2, fs) && KeepsSet(c, c2, js) && SortOf(c2, r) == SortOf(c, u)
  {
    hide Ok, Mixes, S;
    OkJumps(c0, js0, loose, c, jpc, js, u, ts, fs, bad);
    OkInfo(c0, js0, loose, c, jpc, js, u, ts, fs, bad);
    SetDropped(c, c2, S(ts) + S(fs), ts);
    SetDropped(c, c2, S(ts) + S(fs), fs);
    SetDropped(c, c2, S(ts) + S(fs), js);
    assert u.k.VRelocable? ==> c2[u.info] == c2[u.info];
  }

  lemma OkInfo(c0: Code, js0: seq<nat>, loose: bool, c: Code, jpc: int, js: seq<nat>, d: ExpDesc, ts: seq<nat>,
      fs: seq<nat>, bad: set<nat>)
    requires Ok(c0, js0, loose, c, jpc, js, d, ts, fs, bad)
    ensures d.k.VRelocable? ==> d.info < |c| && Relocatable(c[d.info])
    ensures d.k.VJmp? ==> 0 < d.info < |c| && c[d.info - 1].Relop?
  {
  }

  lemma NegateConst(k: seq<Value>, c0: Code, js0: seq<nat>, loose: bool, c: Code, jpc: int, js: seq<nat>, d: ExpDesc,
      ts: seq<nat>, fs: seq<nat>, u: ExpDesc, bad: set<nat>)
    requires Ok(c0, js0, loose, c, jpc, js, d, ts, fs, bad) && (u == d.(k := VTrue) || u == d.(k := VFalse)) &&
        Decided(k, d, !u.k.VTrue?)
    ensures Ok(c0, js0, loose, c, jpc, js, u, ts, fs, bad) && Negator(k, c, d, S(ts) + S(fs), js, c, u, js)
  {
    RenameOk(c0, js0, loose, c, jpc, js, d, ts, fs, u, bad);
    OkParts(c0, js0, loose, c, jpc, js, d, ts, fs, bad);
    hide Ok;
    assert Continues(c, S(ts) + S(fs), S(js), c, S(ts) + S(fs), S(js));
  }

  lemma NegateJmp(k: seq<Value>, c0: Code, js0: seq<nat>, loose: bool, c: Code, jpc: int, d: ExpDesc, ts: seq<nat>,
      fs: seq<nat>, c2: Code, bad: set<nat>)
    requires Ok(c0, js0, loose, c, jpc, [], d, ts, fs, bad) && d.k.VJmp? && 0 < d.info == |c| - 1 &&
        c[d.info - 1].Relop?
    requires var i := c[d.info - 1]; c2 == c[d.info - 1 := Relop(i.rel, !i.want, i.b, i.c)]
    ensures Ok(c0, js0, loose, c2, jpc, [], d, ts, fs, bad) && Negator(k, c, d, S(ts) + S(fs), [], c2, d, [])
  {
    OkParts(c0, js0, loose, c, jpc, [], d, ts, fs, bad);
    OkOpen(c0, js0, loose, c, jpc, [], d, ts, fs, bad);
    EmptyList(c);
    var n, open := d.info - 1, S(ts) + S(fs);
    CompareOpen(c, c2, n, open, S(js0), d.t, ts, d.f, fs, bad);
    InvertedShape(c, S(ts), S(fs), |c0|, S(js0), d, c2);
    assert c2[..|c0|] == c[..|c0|];
    FrameEdit(c0, S(js0), loose, c, open, S([]), c2, open, S([]));
    KeptJpc(c, c2, jpc);
    hide *;
    OkMake(c0, js0, loose, c2, jpc, [], d, ts, fs, bad);
    InvertedNegates(k, c, d, open, c2);
  }

  lemma InvertedNegates(k: seq<Value>, c: Code, d: ExpDesc, open: set<nat>, c2: Code)
    requires d.k.VJmp? && 0 < d.info == |c| - 1 && c[d.info - 1].Relop?
    requires var i := c[d.info - 1]; c2 == c[d.info - 1 := Relop(i.rel, !i.want, i.b, i.c)]
    ensures Negator(k, c, d, open, [], c2, d, [])
  {
    assert S([]) == {} && Body(c2, d) == Body(c, d);
    assert Continues(Body(c, d), open, {}, Body(c2, d), open, {});
  }

  lemma KeptJpc(c: Code, c2: Code, jpc: int)
    requires IsList(c, jpc, [])
    ensures IsList(c2, jpc, [])
  {
  }

  lemma InvertedShape(c: Code, ts: set<nat>, fs: set<nat>, p: nat, ins: set<nat>, d: ExpDesc, c2: Code)
    requires Shape(c, ts, fs, {}, p, ins, d) && d.k.VJmp? && |c2| == |c| && c2[..d.info - 1] == c[..d.info - 1] &&
        c2[d.info - 1].Relop? && c2[d.info] == c[d.info]
    requires Pending(c2, ts + fs)
    ensures Shape(c2, ts, fs, {}, p, ins, d)
  {
    assert ts + fs + {} == ts + fs;
    assert Body(c2, d) == Body(c, d);
  }

  lemma NegateEmit(k: seq<Value>, c0: Code, js0: seq<nat>, loose: bool, c: Code, jpc: int, js: seq<nat>, d: ExpDesc,
      ts: seq<nat>, fs: seq<nat>, c2: Code, u: ExpDesc, bad: set<nat>)
    requires Ok(c0, js0, loose, c, jpc, js, d, ts, fs, bad) && d.k.VNonReloc? && Emitted(c, js, c2, NotOp(0, d.info)) &&
        u == d.(k := VRelocable, info := |c|)
    ensures Ok(c0, js0, loose, c2, NO_JUMP, [], u, ts, fs, bad) && Negator(k, c, d, S(ts) + S(fs), js, c2, u, [])
  {
    OkParts(c0, js0, loose, c, jpc, js, d, ts, fs, bad);
    EmittedGrew(c, js, c2, NotOp(0, d.info));
    assert c2[|c|] == NotOp(0, d.info);
    hide Ok, Emitted, Grew;
    EmitOk(c0, js0, loose, c, jpc, js, d, ts, fs, c2, NotOp(0, d.info), u, bad);
    NegateNew(k, c, d, S(ts) + S(fs), js, c2, u);
  }

  lemma NegateNew(k: seq<Value>, c: Code, d: ExpDesc, open: set<nat>, js: seq<nat>, c2: Code, u: ExpDesc)
    requires d.k.VNonReloc? && |c2| == |c| + 1 && c2[|c|] == NotOp(0, d.info) && u == d.(k := VRelocable, info := |c|)
    requires Grew(c, S(js), c2[..|c|], {}) && Pending(c, S(js)) && open !! S(js)
    ensures Negator(k, c, d, open, js, c2, u, [])
  {
    EmptyList(c2);
    assert Body(c2, u) == c2[..|c|];
    GrewContinues(c, S(js), c2[..|c|], {}, open, open);
  }

  // ---------- Registers ----------

  function Max(a: nat, b: nat): nat {
    if a < b then b else a
  }

  /** The registers that the code for `e` needs. */
  function Need(e: Expr): (n: nat)
    ensures n >= 1
  {
    match e
    case Not(x) => Need(x)
    case And(x, y) => Max(Need(x), Need(y))
    case Or(x, y) => Max(Need(x), Need(y))
    case Comp(_, x, y) => Max(Need(x), 1 + Need(y))
    case _ => 1
  }

  /** Registers are used like a stack: a temporary value is the only one above `base`. */
  predicate Tidy(d: ExpDesc, base: nat, freereg: nat, nactvar: nat, k: seq<Value>) {
    && nactvar <= base
    && (if d.k.VNonReloc? && d.info >= nactvar then d.info == base && freereg == base + 1 else freereg == base)
    && (d.k.VLocal? ==> d.info < nactvar)
    && (d.k.VK? ==> d.info < |k| && !Falsy(k[d.info]))
  }

  predicate Room(error: bool, freereg: nat) {
    !error ==> freereg < MAXSTACK
  }

  /** An operand: a constant, a local variable or the last temporary value. */
  predicate InRK(d: ExpDesc, base: nat, freereg: nat, nactvar: nat) {
    && nactvar <= base
    && ((d.k.VK? && d.info <= MAXINDEXRK && freereg == base) ||
        (d.k.VNonReloc? && if d.info >= nactvar then d.info == base && freereg == base + 1 else freereg == base))
  }

  lemma BranchingPending(c0: Code, js0: seq<nat>, loose: bool, c: Code, jpc: int, js: seq<nat>, t: int, ts: seq<nat>,
      f: int, fs: seq<nat>, pc: int, ps: seq<nat>, bad: set<nat>)
    requires Branching(c0, js0, loose, c, jpc, js, t, ts, f, fs, pc, ps, bad)
    ensures Pending(c, S(ts) + S(fs) + S(ps))
  {
  }

  lemma TakenBack(c: Code, n: nat, c2: Code)
    requires |c2| == n + 2 && n <= |c| && Flushed(c[..n], S([]), c2[..n])
    ensures c2 == c[..n] + [c2[n], c2[n + 1]]
  {
    FlushNothing(c[..n], c2[..n]);
    assert c2 == c2[..n] + [c2[n], c2[n + 1]];
  }

  lemma SameRelop(c: Code, j: nat)
    requires 0 < j < |c| && c[j - 1].Relop?
    ensures var i := c[j - 1]; c == c[j - 1 := Relop(i.rel, i.want == true, i.b, i.c)]
  {
  }

  lemma ComparisonReady(c0: Code, js0: seq<nat>, loose: bool, c: Code, jpc: int, js: seq<nat>, d: ExpDesc,
      ts: seq<nat>, fs: seq<nat>, bad: set<nat>)
    requires Ok(c0, js0, loose, c, jpc, js, d, ts, fs, bad) && d.k.VJmp?
    ensures js == [] && jpc == NO_JUMP && 0 < d.info == |c| - 1 && c[d.info - 1].Relop?
  {
    NoneWait(c0, js0, loose, c, jpc, js, d, ts, fs, bad);
  }

  /** What `exp2reg` relies on when the value is a comparison. */
  lemma JumpReady(c0: Code, js0: seq<nat>, loose: bool, c: Code, jpc: int, js: seq<nat>, v: ExpDesc, ts: seq<nat>,
      fs: seq<nat>, bad: set<nat>)
    requires Ok(c0, js0, loose, c, jpc, js, v, ts, fs, bad) && v.k.VJmp?
    ensures js == [] && jpc == NO_JUMP && v.info < |c| && |c0| <= |c| && IsList(c, v.info, [v.info]) &&
        IsList(c, v.t, ts)
    ensures S(ts) !! S([v.info]) && forall j :: j in S(ts + [v.info]) + S(fs) ==> j < |c|
  {
    NoneWait(c0, js0, loose, c, jpc, js, v, ts, fs, bad);
    OpenInside(c0, js0, loose, c, jpc, js, v, ts, fs, bad);
    OneJump(c, v.info);
    OneSet(v.info, ts);
    assert S([v.info]) == {v.info};
  }

  lemma NoneApart(s: set<nat>)
    ensures S([]) == {} && s !! {}
  {
  }

  lemma SameCode(c: Code, c': Code)
    requires SameButJumps(c, c', S([]))
    ensures c' == c
  {
    assert forall i :: 0 <= i < |c| ==> c'[i] == c[i];
  }

  lemma SameNothing(c: Code, c1: Code, c2: Code, s: seq<nat>, js: seq<nat>)
    requires |c1| == |c| + 1 && c1[..|c|] == c && c1[|c|].Jmp? && |c2| == |c1| + 2 && c2[..|c1|] == c1 && js == [] + s
    ensures |c2| == |c| + 3 && c2[..|c|] == c && c2[|c|].Jmp? && js == s
  {
    assert c2[..|c|] == c2[..|c1|][..|c|];
  }

  lemma LabelsPut(c: Code, c': Code, reg: nat, l: int, s: seq<nat>)
    requires IsList(c, l, s) && c' == c + [LoadBool(reg, false, true), LoadBool(reg, true, false)]
    ensures IsList(c', l, s) && Labels(c', reg) && c'[..|c|] == c && |c'| == |c| + 2
  {
    assert c'[..|c|] == c;
    KeptBehind(c, c', l, s);
  }

  lemma NonePatched(c: Code, vtarget: int, reg: nat, dtarget: int)
    ensures Patched(c, c, {}, vtarget, reg, dtarget)
  {
  }

  lemma NothingFlushed(c: Code)
    ensures IsList(c, NO_JUMP, [])
  {
  }

  lemma FlushNothing(c: Code, c': Code)
    requires Flushed(c, S([]), c')
    ensures c' == c
  {
    assert forall i {:trigger c'[i]} :: 0 <= i < |c| ==> c'[i] == c[i];
  }

  lemma RenameOk(c0: Code, js0: seq<nat>, loose: bool, c: Code, jpc: int, js: seq<nat>, d: ExpDesc, ts: seq<nat>,
      fs: seq<nat>, r: ExpDesc, bad: set<nat>)
    requires Ok(c0, js0, loose, c, jpc, js, d, ts, fs, bad) && Settled(d) && Settled(r) && r.t == d.t && r.f == d.f
    ensures Ok(c0, js0, loose, c, jpc, js, r, ts, fs, bad)
  {
  }

  lemma MoveAll(k: seq<Value>, c0: Code, js0: seq<nat>, loose: bool, c: Code, jpc: int, js: seq<nat>, d: ExpDesc,
      ts: seq<nat>, fs: seq<nat>,
                c': Code, r: ExpDesc, e: Expr, base: nat, bad: set<nat>)
    requires Ok(c0, js0, loose, c, jpc, js, d, ts, fs, bad) && d.k.VNonReloc? && r.k.VNonReloc? && base <= r.info
    requires Emitted(c, js, c', Move(r.info, d.info)) && All(k, c, ts, fs, js, c0, js0, d, e, base, bad)
    ensures All(k, c', ts, fs, [], c0, js0, r, e, base, bad)
  {
    hide Ok, All, Emitted;
    EmitAll(k, k, c0, js0, loose, c, jpc, js, d, ts, fs, c', Move(r.info, d.info), r, e, base, bad);
  }

  lemma GlobalStarted(k: seq<Value>, c0: Code, js0: seq<nat>, loose: bool, c: Code, jpc: int, js: seq<nat>,
      d: ExpDesc, ts: seq<nat>, fs: seq<nat>,
                      c': Code, r: ExpDesc, e: Expr, base: nat, bad: set<nat>)
    requires Ok(c0, js0, loose, c, jpc, js, d, ts, fs, bad) && d.k.VGlobal? && r == d.(k := VRelocable, info := |c|)
    requires Emitted(c, js, c', GetGlobal(0, d.info))
    ensures Ok(c0, js0, loose, c', NO_JUMP, [], r, ts, fs, bad)
    ensures All(k, c, ts, fs, js, c0, js0, d, e, base, bad) ==> All(k, c', ts, fs, [], c0, js0, r, e, base, bad)
  {
    assert c'[|c|] == GetGlobal(0, d.info);
    hide Ok, All, Emitted;
    EmitOk(c0, js0, loose, c, jpc, js, d, ts, fs, c', GetGlobal(0, d.info), r, bad);
    if All(k, c, ts, fs, js, c0, js0, d, e, base, bad) {
      ReopenAll(k, c0, js0, loose, c, jpc, js, d, ts, fs, c', GetGlobal(0, d.info), r, e, base, bad);
    }
  }

  predicate IsLiteral(d: ExpDesc) {
    d.k.VNil? || d.k.VTrue? || d.k.VFalse? || d.k.VK? || d.k.VKNum?
  }

  function Literal(w: World, d: ExpDesc): Value {
    match d.k
    case VTrue => Bool(true)
    case VFalse => Bool(false)
    case VK => Const(w, d.info)
    case VKNum => Other(d.nval)
    case _ => Nil
  }

  /** The instruction puts the literal into the register. */
  ghost predicate Loads(k: seq<Value>, i: Instr, reg: nat, d: ExpDesc) {
    forall w: World, m: Machine :: k <= w.consts ==> Plain(w, i, m) == SetReg(m, reg, Literal(w, d))
  }

  lemma NilOne(reg: nat)
    ensures forall m: Machine :: NilRange(m, reg, reg) == SetReg(m, reg, Nil)
  {
    forall m: Machine ensures NilRange(m, reg, reg) == SetReg(m, reg, Nil) {
      assert NilRange(SetReg(m, reg, Nil), reg + 1, reg) == SetReg(m, reg, Nil);
    }
  }

  lemma LoadAll(k: seq<Value>, k': seq<Value>, c0: Code, js0: seq<nat>, loose: bool, c: Code, jpc: int, js: seq<nat>,
      d: ExpDesc, ts: seq<nat>, fs: seq<nat>,
                c': Code, i: Instr, r: ExpDesc, e: Expr, base: nat, bad: set<nat>)
    requires Ok(c0, js0, loose, c, jpc, js, d, ts, fs, bad) && r.k.VNonReloc? && base <= r.info && IsPlain(i) && k <= k'
    requires IsLiteral(d) && Loads(k', i, r.info, d)
    requires Emitted(c, js, c', i) && All(k, c, ts, fs, js, c0, js0, d, e, base, bad)
    ensures All(k', c', ts, fs, [], c0, js0, r, e, base, bad)
  {
    hide Ok, All, Emitted, Plain;
    forall w: World, m: Machine | k' <= w.consts
      ensures Keeps(m, Plain(w, i, m), base) && ValueOf(w, c', r, Plain(w, i, m)) == ValueOf(w, c, d, m)
    {
      assert Plain(w, i, m) == SetReg(m, r.info, Literal(w, d));
    }
    EmitAll(k, k', c0, js0, loose, c, jpc, js, d, ts, fs, c', i, r, e, base, bad);
  }

  /** Nothing waits for the end of code that is not complete. */
  lemma NoneWait(c0: Code, js0: seq<nat>, loose: bool, c: Code, jpc: int, js: seq<nat>, d: ExpDesc, ts: seq<nat>,
      fs: seq<nat>, bad: set<nat>)
    requires Ok(c0, js0, loose, c, jpc, js, d, ts, fs, bad) && !Settled(d)
    ensures js == [] && jpc == NO_JUMP && |c0| <= d.info == |c| - 1
    ensures d.k.VJmp? ==>
        |c0| < d.info && c[d.info] == Jmp(NO_JUMP) && c[d.info - 1].Relop? && d.info !in S(ts) && d.info !in S(fs)
  {
    assert forall i :: 0 <= i < |js| ==> js[i] in S(js);
  }

  lemma NothingWaits(c0: Code, js0: seq<nat>, loose: bool, c: Code, jpc: int, js: seq<nat>, d: ExpDesc, ts: seq<nat>,
      fs: seq<nat>, bad: set<nat>)
    requires Ok(c0, js0, loose, c, jpc, js, d, ts, fs, bad) && d.k.VRelocable?
    ensures js == [] && jpc == NO_JUMP && d.info == |c| - 1
  {
    NoneWait(c0, js0, loose, c, jpc, js, d, ts, fs, bad);
  }

  lemma OpenInside(c0: Code, js0: seq<nat>, loose: bool, c: Code, jpc: int, js: seq<nat>, d: ExpDesc, ts: seq<nat>,
      fs: seq<nat>, bad: set<nat>)
    requires Ok(c0, js0, loose, c, jpc, js, d, ts, fs, bad)
    ensures forall j :: j in S(ts) + S(fs) ==> j < |c|
    ensures d.t != d.f <==> ts != [] || fs != []
  {
    forall j | j in S(ts) + S(fs) ensures j < |c| {
      assert j in S(ts) + S(fs) + S(js);
    }
    if ts != [] && fs != [] {
      assert ts[0] in S(ts) && fs[0] in S(fs);
    }
  }

  lemma KeptBehind(c: Code, c': Code, l: int, s: seq<nat>)
    requires IsList(c, l, s) && |c| <= |c'| && c'[..|c|] == c
    ensures IsList(c', l, s)
  {
    ListJumps(c, l, s);
    forall j | j in s ensures c'[j] == c[j] {
      assert c'[j] == c'[..|c|][j];
    }
    ListKept(c, c', l, s);
  }

  lemma TestIsSet(c: Code, j: nat)
    requires 0 < j < |c| && c[j - 1].TestSet?
    ensures IsSet(c, j)
  {
  }

  lemma TakenBackSet(c0: Code, js0: seq<nat>, loose: bool, c: Code, jpc: int, js: seq<nat>, d: ExpDesc, ts: seq<nat>,
      fs: seq<nat>, c': Code, j: nat, bad: set<nat>)
    requires Ok(c0, js0, loose, c, jpc, [], d, ts, fs, bad) && d.k.VRelocable? && d.info == |c| - 1 && c[d.info].NotOp?
    requires |c'| == |c| + 1 && c' == c[..d.info] + [c'[d.info], c'[d.info + 1]] && c'[d.info].Test? && j == d.info + 1
    ensures KeepsSet(c, c', ts) && KeepsSet(c, c', fs) && !IsSet(c', j)
  {
    assert c'[..d.info] == c[..d.info];
    OkLast(c0, js0, loose, c, jpc, [], d, ts, fs, c', bad);
  }

  lemma ComparedSet(c0: Code, js0: seq<nat>, loose: bool, c: Code, jpc: int, js: seq<nat>, d: ExpDesc, ts: seq<nat>,
      fs: seq<nat>, c': Code, bad: set<nat>)
    requires Ok(c0, js0, loose, c, jpc, js, d, ts, fs, bad) && 0 < d.info < |c| == |c'| && c[d.info - 1].Relop? &&
        c'[d.info - 1].Relop?
    requires forall i :: 0 <= i < |c| && i != d.info - 1 ==> c'[i] == c[i]
    ensures KeepsSet(c, c', ts) && KeepsSet(c, c', fs) && !IsSet(c', d.info)
  {
    forall j | j in S(ts) + S(fs) ensures IsSet(c', j) <==> IsSet(c, j) {
    }
    SetSame(c, c', ts);
    SetSame(c, c', fs);
  }

  lemma HeldSet(c0: Code, js0: seq<nat>, loose: bool, c: Code, jpc: int, js: seq<nat>, d: ExpDesc, ts: seq<nat>,
      fs: seq<nat>, c': Code, pc: nat, ps: seq<nat>, bad: set<nat>)
    requires Ok(c0, js0, loose, c, jpc, js, d, ts, fs, bad) && |c'| == |c| + 1 && c'[..|c|] == c && pc == |c| &&
        ps == [pc] + js
    ensures KeepsSet(c, c', ts) && KeepsSet(c, c', fs) && (Mixes(c', ps) <==> Mixes(c, js))
  {
    OkPrefix(c0, js0, loose, c, jpc, js, d, ts, fs, c', bad);
    OkReady(c0, js0, loose, c, jpc, js, d, ts, fs, bad);
    NewUnset(c, c');
    MixesOne(c', pc);
    MixesBoth(c', [pc], js);
  }

  /** Lists are joined, and where jumps point does not matter for the values they bring. */
  lemma LandedSet(c0: Code, js0: seq<nat>, loose: bool, c: Code, jpc: int, js: seq<nat>, t: int, ts: seq<nat>, f: int,
      fs: seq<nat>, pc: int, ps: seq<nat>,
                  stay: seq<nat>, go: seq<nat>, c1: Code, c2: Code, bad: set<nat>)
    requires Branching(c0, js0, loose, c, jpc, js, t, ts, f, fs, pc, ps, bad) && (stay, go) in {(ts, fs), (fs, ts)}
    requires SameButJumps(c, c1, S(stay)) && SameButJumps(c1, c2, S(js))
    ensures Mixes(c2, stay + ps) <==> Mixes(c, stay) || Mixes(c, ps)
    ensures Mixes(c2, js + go) <==> Mixes(c, js) || Mixes(c, go)
    ensures stay + ps != [] <==> stay != [] || ps != []
  {
    BranchingJumps(c0, js0, loose, c, jpc, js, t, ts, f, fs, pc, ps, bad);
    forall j: nat | j in S(ts) + S(fs) + S(ps) + S(js) ensures IsSet(c2, j) <==> IsSet(c, j) {
      assert j > 0 ==> c1[j - 1] == c1[j - 1] && c2[j - 1] == c2[j - 1];
    }
    SetSame(c, c2, stay);
    SetSame(c, c2, ps);
    SetSame(c, c2, js);
    SetSame(c, c2, go);
    MixesBoth(c2, stay, ps);
    MixesBoth(c2, js, go);
  }

  lemma BranchingJumps(c0: Code, js0: seq<nat>, loose: bool, c: Code, jpc: int, js: seq<nat>, t: int, ts: seq<nat>,
      f: int, fs: seq<nat>, pc: int, ps: seq<nat>, bad: set<nat>)
    requires Branching(c0, js0, loose, c, jpc, js, t, ts, f, fs, pc, ps, bad)
    ensures AreJumps(c, S(ts) + S(fs) + S(ps) + S(js))
  {
    BranchingPending(c0, js0, loose, c, jpc, js, t, ts, f, fs, pc, ps, bad);
    JoinReady(c0, js0, loose, c, jpc, js, t, ts, f, fs, pc, ps, bad);
    ListJumps(c, jpc, js);
    PendingJumps(c, S(ts) + S(fs) + S(ps));
  }

  lemma LabelUnset(c0: Code, js0: seq<nat>, loose: bool, c: Code, jpc: int, js: seq<nat>, d: ExpDesc, ts: seq<nat>,
      fs: seq<nat>, c': Code, fj: nat, js': seq<nat>, bad: set<nat>)
    requires Ok(c0, js0, loose, c, jpc, js, d, ts, fs, bad) && |c'| > |c| == fj && c'[..|c|] == c && js' == [fj] + js
    ensures js == [] ==> !Mixes(c', js')
  {
    NewUnset(c, c');
    if js == [] {
      assert js' == [fj];
      MixesOne(c', fj);
    }
  }

  lemma PatchedSet(c0: Code, js0: seq<nat>, loose: bool, c: Code, jpc: int, js: seq<nat>, d: ExpDesc, ts: seq<nat>,
      fs: seq<nat>, c': Code,
                   p: set<nat>, vtarget: int, reg: nat, dtarget: int, bad: set<nat>)
    requires Ok(c0, js0, loose, c, jpc, js, d, ts, fs, bad) && (p == S(ts) || p == S(fs)) &&
        Patched(c, c', p, vtarget, reg, dtarget)
    ensures KeepsSet(c, c', js)
  {
    OkJumps(c0, js0, loose, c, jpc, js, d, ts, fs, bad);
    SetPatched(c, c', p, vtarget, reg, dtarget, js);
  }

  lemma MixesKept(c: Code, c': Code, s: seq<nat>)
    requires KeepsSet(c, c', s)
    ensures Mixes(c', s) <==> Mixes(c, s)
  {
  }

  lemma RelocatedSet(c0: Code, js0: seq<nat>, loose: bool, c: Code, jpc: int, js: seq<nat>, d: ExpDesc, ts: seq<nat>,
      fs: seq<nat>, c': Code, bad: set<nat>)
    requires Ok(c0, js0, loose, c, jpc, js, d, ts, fs, bad) && d.k.VRelocable? && |c'| == |c|
    requires forall i :: 0 <= i < |c| && i != d.info ==> c'[i] == c[i]
    ensures KeepsSet(c, c', ts) && KeepsSet(c, c', fs)
  {
    NoneWait(c0, js0, loose, c, jpc, js, d, ts, fs, bad);
    OkInfo(c0, js0, loose, c, jpc, js, d, ts, fs, bad);
    assert c'[..|c| - 1] == c[..|c| - 1];
    OkLast(c0, js0, loose, c, jpc, js, d, ts, fs, c', bad);
  }

  lemma OneJump(c: Code, j: nat)
    requires j < |c| && c[j] == Jmp(NO_JUMP)
    ensures IsList(c, j, [j])
  {
    assert [j][1..] == [];
    assert IsList(c, GetJump(c, j), [j][1..]);
  }

  lemma OkLists(c0: Code, js0: seq<nat>, loose: bool, c: Code, jpc: int, js: seq<nat>, d: ExpDesc, ts: seq<nat>,
      fs: seq<nat>, bad: set<nat>)
    requires Ok(c0, js0, loose, c, jpc, js, d, ts, fs, bad)
    ensures IsList(c, d.t, ts) && IsList(c, d.f, fs) && IsList(c, jpc, js) && |c0| <= |c|
    ensures d.t == d.f ==> ts == [] && fs == [] && d.t == NO_JUMP
  {
    OpenInside(c0, js0, loose, c, jpc, js, d, ts, fs, bad);
  }

  lemma NoLabels(c: Code, p: nat, ts: seq<nat>, fs: seq<nat>, reg: nat)
    requires !(exists j :: j in ts && !IsSet(c, j)) && !(exists j :: j in fs && !IsSet(c, j))
    ensures LabelsOr(c, p, S(ts) + S(fs), reg, NO_JUMP, NO_JUMP)
  {
    forall j | j in S(ts) + S(fs) ensures IsSet(c, j) {
      assert j in ts || j in fs;
    }
  }

  lemma LabelsAre(c: Code, p: nat, xs: set<nat>, reg: nat, pf: int, pt: int)
    requires Labels(c, reg) && pf == |c| - 2 && pt == |c| - 1 && p <= pf && forall j :: j in xs ==> j < pf
    ensures LabelsOr(c, p, xs, reg, pf, pt)
  {
  }

  lemma PatchReady(c0: Code, js0: seq<nat>, loose: bool, c: Code, jpc: int, js: seq<nat>, v: ExpDesc, ts: seq<nat>,
      fs: seq<nat>, pf: int, pt: int, bad: set<nat>)
    requires Ok(c0, js0, loose, c, jpc, js, v, ts, fs, bad) && LabelsOr(c, |c0|, S(ts) + S(fs), v.info, pf, pt)
    ensures IsList(c, v.f, fs) && NO_JUMP <= pf <= |c| && NO_JUMP <= pt <= |c| &&
        ((exists j :: j in fs && !IsSet(c, j)) ==> pf != NO_JUMP)
  {
    if exists j :: j in fs && !IsSet(c, j) {
      var j :| j in fs && !IsSet(c, j);
      assert j in S(ts) + S(fs);
    }
  }

  lemma OpenJumps(c: Code, open: set<nat>, js: set<nat>)
    requires Pending(c, open + js)
    ensures forall j :: j in open ==> j < |c| && c[j].Jmp?
  {
    assert forall j :: j in open ==> j in open + js;
  }

  lemma PatchNeeds(c: Code, p: nat, ts: seq<nat>, reg: nat, pf: int, pt: int)
    requires LabelsOr(c, p, S(ts) + {}, reg, pf, pt)
    ensures (exists j :: j in ts && !IsSet(c, j)) ==> pt != NO_JUMP
  {
    LabelsOrUse(c, p, S(ts), {}, reg, pf, pt);
    if exists j :: j in ts && !IsSet(c, j) {
      var j :| j in ts && !IsSet(c, j);
      assert j in S(ts);
    }
  }

  lemma SecondPatched(k: seq<Value>, c0: Code, js0: seq<nat>, loose: bool, c: Code, jpc: int, js: seq<nat>,
      u: ExpDesc, ts: seq<nat>,
                      c': Code, pf: int, pt: int, r: ExpDesc, e: Expr, base: nat, bad: set<nat>)
    requires Ok(c0, js0, loose, c, jpc, js, u, ts, [], bad) && u.k.VNonReloc? &&
        LabelsOr(c, |c0|, S(ts) + {}, u.info, pf, pt)
    requires Patched(c, c', S(ts), |c|, u.info, pt) && r == u.(t := NO_JUMP) && base <= u.info
    requires loose || !Spoilt(ts, bad)
    ensures Ok(c0, js0, loose, c', jpc, js, r, [], [], bad)
    ensures All(k, c, ts, [], js, c0, js0, u, e, base, bad) && u.info < NO_REG && !loose ==>
        All(k, c', [], [], js, c0, js0, r, e, base, bad)
  {
    OkParts(c0, js0, loose, c, jpc, js, u, ts, [], bad);
    EmptyList(c);
    LabelsOrUse(c, |c0|, S(ts), {}, u.info, pf, pt);
    hide Ok, All, Patched, LabelsOr;
    PatchedOk(c0, js0, loose, c, jpc, js, u, ts, [], c', true, pt, r, bad);
    if All(k, c, ts, [], js, c0, js0, u, e, base, bad) && u.info < NO_REG && !loose {
      PatchedAll(k, c0, js0, loose, c, jpc, js, u, ts, [], c', true, pt, r, e, base, bad);
    }
  }

  lemma FirstPatched(k: seq<Value>, c0: Code, js0: seq<nat>, loose: bool, c: Code, jpc: int, js: seq<nat>, v: ExpDesc,
      ts: seq<nat>, fs: seq<nat>,
                     c': Code, pf: int, pt: int, u: ExpDesc, e: Expr, base: nat, bad: set<nat>)
    requires Ok(c0, js0, loose, c, jpc, js, v, ts, fs, bad) && v.k.VNonReloc? &&
        LabelsOr(c, |c0|, S(ts) + S(fs), v.info, pf, pt)
    requires Patched(c, c', S(fs), |c|, v.info, pf) && u == v.(f := NO_JUMP) && base <= v.info
    requires loose || !Spoilt(fs, bad)
    ensures Ok(c0, js0, loose, c', jpc, js, u, ts, [], bad) && LabelsOr(c', |c0|, S(ts) + {}, v.info, pf, pt) &&
        |c'| == |c|
    ensures IsList(c', u.t, ts) && ((exists j :: j in ts && !IsSet(c', j)) ==> pt != NO_JUMP)
    ensures All(k, c, ts, fs, js, c0, js0, v, e, base, bad) && v.info < NO_REG && !loose ==>
        All(k, c', ts, [], js, c0, js0, u, e, base, bad)
  {
    OkParts(c0, js0, loose, c, jpc, js, v, ts, fs, bad);
    OpenJumps(c, S(ts) + S(fs), S(js));
    assert S(fs) + S(ts) == S(ts) + S(fs);
    LabelsOrUse(c, |c0|, S(fs), S(ts), v.info, pf, pt);
    PatchedLabelsOr(c, c', S(ts), S(fs), |c0|, v.info, pf, pt);
    hide Ok, All, Patched, LabelsOr;
    PatchedOk(c0, js0, loose, c, jpc, js, v, ts, fs, c', false, pf, u, bad);
    if All(k, c, ts, fs, js, c0, js0, v, e, base, bad) && v.info < NO_REG && !loose {
      PatchedAll(k, c0, js0, loose, c, jpc, js, v, ts, fs, c', false, pf, u, e, base, bad);
    }
    PatchNeeds(c', |c0|, ts, v.info, pf, pt);
    OkLists(c0, js0, loose, c', jpc, js, u, ts, [], bad);
  }

  // ---------- Misplaced values, while the code changes ----------

  /** A misplaced value may be asked for now. */
  lemma OkLoosen(c0: Code, js0: seq<nat>, loose: bool, loose': bool, c: Code, jpc: int, js: seq<nat>, d: ExpDesc,
      ts: seq<nat>, fs: seq<nat>, bad: set<nat>)
    requires Ok(c0, js0, loose, c, jpc, js, d, ts, fs, bad) && (loose ==> loose')
    ensures Ok(c0, js0, loose', c, jpc, js, d, ts, fs, bad)
  {
    OkOpen(c0, js0, loose, c, jpc, js, d, ts, fs, bad);
    FrameLoosen(c0, S(js0), loose, loose', c, S(ts) + S(fs), S(js));
  }

  lemma BadInside(c0: Code, js0: seq<nat>, loose: bool, c: Code, jpc: int, js: seq<nat>, d: ExpDesc, ts: seq<nat>,
      fs: seq<nat>, bad: set<nat>)
    requires Ok(c0, js0, loose, c, jpc, js, d, ts, fs, bad)
    ensures forall j :: j >= |c| ==> j !in bad
  {
  }

  /** The jump of a comparison brings no value. */
  lemma JumpAsks(c0: Code, js0: seq<nat>, loose: bool, c: Code, jpc: int, js: seq<nat>, v: ExpDesc, ts: seq<nat>,
      fs: seq<nat>, bad: set<nat>)
    requires Ok(c0, js0, loose, c, jpc, js, v, ts, fs, bad) && v.k.VJmp?
    ensures v.info !in bad && (Asks(ts + [v.info], fs, bad) <==> Asks(ts, fs, bad))
  {
    SpoiltBoth(ts, [v.info], bad);
    SpoiltOne(v.info, bad);
  }

  /** The jumps that wait where a constant always leaves are misplaced if they bring a value. */
  lemma HeldBad(c0: Code, js0: seq<nat>, loose: bool, c: Code, jpc: int, js: seq<nat>, d: ExpDesc, ts: seq<nat>,
      fs: seq<nat>, pc: nat, ps: seq<nat>, bad: set<nat>)
    requires Ok(c0, js0, loose, c, jpc, js, d, ts, fs, bad) && pc == |c| && ps == [pc] + js
    ensures var bad' := bad + Misplaced(c, S(js));
            && (Spoilt(ps, bad') <==> Mixes(c, js)) && SameSpoilt(ts, fs, bad, bad') && SameBad(c0, js0, bad, bad')
  {
    var bad' := bad + Misplaced(c, S(js));
    OkParts(c0, js0, loose, c, jpc, js, d, ts, fs, bad);
    OkOpen(c0, js0, loose, c, jpc, js, d, ts, fs, bad);
    OneSet(pc, js);
    hide Shape, IsList, Valueless, Whole;
    assert pc !in bad' by { assert forall j :: j in S(js) ==> j < |c|; }
    forall j | j < |c0| && j !in S(js0) ensures j in bad' <==> j in bad {
      assert j in S(js) ==> j in S(ts) + S(fs) + S(js);
    }
  }

  /** One list goes to the current position: no value is missed there. */
  lemma LandedBad(c0: Code, js0: seq<nat>, loose: bool, c: Code, jpc: int, js: seq<nat>, t: int, ts: seq<nat>, f: int,
      fs: seq<nat>, pc: int, ps: seq<nat>, cond: bool, xs: seq<nat>, js': seq<nat>, bad: set<nat>)
    requires Branching(c0, js0, loose, c, jpc, js, t, ts, f, fs, pc, ps, bad)
    requires xs == (if cond then ts else fs) + ps && js' == js + if cond then fs else ts
    ensures var bad' := bad - S(js');
            && (Spoilt(xs, bad') <==> Spoilt(if cond then ts else fs, bad) || Spoilt(ps, bad))
            && SameBad(c0, js0, bad, bad')
  {
    var stay, go := if cond then ts else fs, if cond then fs else ts;
    JoinReady(c0, js0, loose, c, jpc, js, t, ts, f, fs, pc, ps, bad);
    SumSets(js, go);
    SpoiltBoth(stay, ps, bad);
    SumSets(stay, ps);
    hide IsList, Valueless, Whole;
    assert forall j :: j in S(xs) ==> j !in S(js');
    forall j | j < |c0| && j !in S(js0) ensures j in bad - S(js') <==> j in bad {
      assert j in S(go) ==> j in S(ts) + S(fs) + S(ps);
      assert j in S(js) ==> j in S(ts) + S(fs) + S(ps) + S(js);
    }
  }

  lemma LandedApart(c0: Code, js0: seq<nat>, loose: bool, c: Code, jpc: int, js: seq<nat>, t: int, ts: seq<nat>,
      f: int, fs: seq<nat>, pc: int, ps: seq<nat>, cond: bool, xs: seq<nat>, js': seq<nat>, bad: set<nat>)
    requires Branching(c0, js0, loose, c, jpc, js, t, ts, f, fs, pc, ps, bad)
    requires xs == (if cond then ts else fs) + ps && js' == js + if cond then fs else ts
    ensures forall j :: j in When(cond, S(xs)) + When(!cond, S(xs)) && j in bad ==> j in bad - S(js')
  {
    JoinReady(c0, js0, loose, c, jpc, js, t, ts, f, fs, pc, ps, bad);
    SumSets(js, if cond then fs else ts);
    SumSets(if cond then ts else fs, ps);
  }

  /** Both lists have lost their values. */
  lemma ClearedOk(c0: Code, js0: seq<nat>, loose: bool, c: Code, jpc: int, js: seq<nat>, d: ExpDesc, ts: seq<nat>,
      fs: seq<nat>, bad: set<nat>)
    requires Ok(c0, js0, loose, c, jpc, js, d, ts, fs, bad) && forall j :: j in S(fs) + S(ts) ==> !IsSet(c, j)
    ensures var bad' := bad - S(fs) - S(ts);
            && Ok(c0, js0, loose, c, jpc, js, d, ts, fs, bad') && !Spoilt(ts, bad') && !Spoilt(fs, bad')
            && SameBad(c0, js0, bad, bad')
  {
    hide Frame, IsList;
    assert S(fs) + S(ts) == S(ts) + S(fs);
  }

  /** The code of the second operand leaves the list of the first alone. */
  lemma FirstBad(c0: Code, js0: seq<nat>, loose: bool, c: Code, jpc: int, js: seq<nat>, l: int, xs: seq<nat>,
      truth: bool, bad: set<nat>, bad': set<nat>)
    requires CondOk(c0, js0, loose, c, jpc, js, l, xs, bad) && SameBad(c, js, bad, bad')
    ensures forall j :: j in S(xs) ==> (j in bad <==> j in bad')
    ensures forall j :: j in When(truth, S(xs)) + When(!truth, S(xs)) && j in bad ==> j in bad'
    ensures Spoilt(xs, bad') <==> Spoilt(xs, bad)
  {
    forall j | j in S(xs) ensures j in bad <==> j in bad' {
      assert j in S(xs) + S(js) && j !in S(js);
    }
  }

  lemma SameBadOn(c0: Code, js0: seq<nat>, loose: bool, c: Code, jpc: int, js: seq<nat>, l: int, xs: seq<nat>,
      bad: set<nat>, bad1: set<nat>, bad2: set<nat>)
    requires CondOk(c0, js0, loose, c, jpc, js, l, xs, bad1) && SameBad(c0, js0, bad, bad1) &&
        SameBad(c, js, bad1, bad2)
    ensures SameBad(c0, js0, bad, bad2)
  {
    forall j | j < |c0| && j !in S(js0) ensures j in bad2 <==> j in bad {
      assert j in S(js) ==> j in S(xs) + S(js);
    }
  }

  lemma SameBadOver(c0: Code, js0: seq<nat>, loose: bool, c: Code, jpc: int, js: seq<nat>, d: ExpDesc, bad: set<nat>,
      bad1: set<nat>, bad2: set<nat>)
    requires Ok(c0, js0, loose, c, jpc, js, d, [], [], bad1) && SameBad(c0, js0, bad, bad1) &&
        SameBad(c, js, bad1, bad2)
    ensures SameBad(c0, js0, bad, bad2)
  {
    OkOpen(c0, js0, loose, c, jpc, js, d, [], [], bad1);
    forall j | j < |c0| && j !in S(js0) ensures j in bad2 <==> j in bad {
      assert j in S(js) ==> j in S([]) + S([]) + S(js);
    }
  }
}
