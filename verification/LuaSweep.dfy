/**
 What one step of the sweep does to the state, and that it keeps the invariant: recolouring a
 survivor, freeing a dead object, closing an open upvalue of a thread that goes away.
 */
module LuaSweep {
  import opened Seqs
  import opened LuaHeap
  import opened LuaInvariants

  /** The program sees no difference: a thread keeps its stack, an upvalue its value. */
  ghost predicate SameObject(h: Heap, h': Heap, o: Ref)
    requires o in h
  {
    && o in h'
    && match h[o]
       case Thread(gt, stack, _) => h'[o].Thread? && h'[o].gt == gt && h'[o].stack == stack
       case OpenUp(_, _) => IsUpval(h'[o]) && UpvalValue(h', h'[o]) == UpvalValue(h, h[o])
       case _ => h'[o] == h[o]
  }

  ghost predicate SameRoots(s: State, s': State) {
    s'.mainthread == s.mainthread && s'.running == s.running && s'.registry == s.registry && s'.mt == s.mt
  }

  /** A collector step frees no object that is not dead and changes none as far as the program can see. */
  ghost predicate KeepsAlive(s: State, s': State) {
    && SameRoots(s, s')
    && s'.currentwhite == s.currentwhite && s'.fixed == s.fixed
    && s'.heap.Keys <= s.heap.Keys
    && (forall o :: Alive(s.heap, s.marked, s.currentwhite, o) ==>
         SameObject(s.heap, s'.heap, o) && Alive(s'.heap, s'.marked, s.currentwhite, o))
    && (forall o :: Alive(s'.heap, s'.marked, s.currentwhite, o) ==>
         Alive(s.heap, s.marked, s.currentwhite, o) || o in s.fixed)
  }

  lemma KeepsAliveTrans(s: State, t: State, u: State)
    requires KeepsAlive(s, t) && KeepsAlive(t, u)
    ensures KeepsAlive(s, u)
  {
    forall o | Alive(s.heap, s.marked, s.currentwhite, o)
      ensures SameObject(s.heap, u.heap, o) && Alive(u.heap, u.marked, s.currentwhite, o)
    {
      assert Alive(t.heap, t.marked, s.currentwhite, o);
    }
    forall o | Alive(u.heap, u.marked, s.currentwhite, o)
      ensures Alive(s.heap, s.marked, s.currentwhite, o) || o in s.fixed
    {
      assert Alive(t.heap, t.marked, s.currentwhite, o) || o in s.fixed;
    }
  }

  lemma SameEdges(h: Heap, h': Heap, o: Ref)
    requires o in h && SameObject(h, h', o)
    ensures forall c :: c in Edges(h', o) <==> c in Edges(h, o)
  {
  }

  // ---------- Recolouring a survivor ----------

  function Whiten(s: State, o: Ref): State {
    s.(marked := s.marked[o := White(s.currentwhite)])
  }

  lemma WhitenInv(s: State, o: Ref)
    requires Inv(s) && (s.phase.SweepString? || s.phase.Sweep?)
    requires o in s.heap && (Alive(s.heap, s.marked, s.currentwhite, o) || o in s.fixed)
    ensures Inv(Whiten(s, o)) && KeepsAlive(s, Whiten(s, o))
  {
    hide StringsOk, UpvalsOk, RootListOk, Edges, SweptRoots, SweptStrings, AliveClosed;
    var s' := Whiten(s, o);
    assert s.mainthread in s.Roots();
    assert AliveClosed(s'.heap, s'.marked, s'.currentwhite) by {
      LiveFacts(s);
      WhitenAlive(s, o);
    }
    assert Live(s') by {
      assert s'.Roots() == s.Roots();
      assert forall r :: r in s.Roots() ==> Alive(s.heap, s.marked, s.currentwhite, r);
    }
    WhitenSwept(s, o);
    assert Sweeping(s');
  }

  lemma WhitenAlive(s: State, o: Ref)
    requires AliveClosed(s.heap, s.marked, s.currentwhite) && s.marked.Keys == s.heap.Keys
    requires o in s.heap && (Alive(s.heap, s.marked, s.currentwhite, o) || s.heap[o].Str?)
    ensures AliveClosed(s.heap, Whiten(s, o).marked, s.currentwhite)
  {
    var m := Whiten(s, o).marked;
    forall x, c | Alive(s.heap, m, s.currentwhite, x) && c in Edges(s.heap, x)
        ensures Alive(s.heap, m, s.currentwhite, c) {
      assert Alive(s.heap, s.marked, s.currentwhite, x);
      assert Alive(s.heap, s.marked, s.currentwhite, c);
    }
    forall x, c | Alive(s.heap, m, s.currentwhite, x) && s.heap[x].LClosure? && c in s.heap[x].upvals
      ensures c in s.heap && IsUpval(s.heap[c])
    {
      assert Alive(s.heap, s.marked, s.currentwhite, x);
    }
  }

  lemma WhitenSwept(s: State, o: Ref)
    requires SweptRoots(s.heap, s.marked, s.currentwhite, s.rootgc, s.sweepgc)
    requires SweptStrings(s.marked, s.currentwhite, s.strt, s.sweepstrgc)
    ensures SweptRoots(s.heap, Whiten(s, o).marked, s.currentwhite, s.rootgc, s.sweepgc)
    ensures SweptStrings(Whiten(s, o).marked, s.currentwhite, s.strt, s.sweepstrgc)
  {
  }

  // ---------- Freeing a dead object ----------

  /** The object can be released: it is dead, not fixed, and owns no open upvalues. */
  ghost predicate Doomed(s: State, o: Ref) {
    && o in s.heap && o in s.marked && IsDead(s.marked, s.currentwhite, o) && o !in s.fixed
    && (s.heap[o].Thread? ==> s.heap[o].openupval == [])
  }

  /** Releasing `o` changes no other object: no open upvalue points into its stack. */
  lemma FreeOthers(h: Heap, uvhead: seq<Ref>, o: Ref, x: Ref)
    requires UpvalsOk(h, uvhead)
    requires o in h && (h[o].Thread? ==> h[o].openupval == [])
    requires x in h && x != o
    ensures SameObject(h, h - {o}, x)
    ensures Edges(h - {o}, x) == Edges(h, x)
  {
    if h[x].OpenUp? {
      assert CellOk(h, x);
    }
  }

  /** If live objects look the same and nothing dead comes back to life, liveness is kept. */
  lemma KeepsLive(s: State, s': State)
    requires Live(s) && KeepsAlive(s, s')
    requires forall x :: Alive(s'.heap, s'.marked, s.currentwhite, x) ==> Alive(s.heap, s.marked, s.currentwhite, x)
    ensures Live(s')
  {
    hide Edges, SameObject;
    var h, m, h', m', cw := s.heap, s.marked, s'.heap, s'.marked, s.currentwhite;
    forall x, c | Alive(h', m', cw, x) && c in Edges(h', x) ensures Alive(h', m', cw, c) {
      assert Alive(h, m, cw, x);
      SameEdges(h, h', x);
      assert Alive(h, m, cw, c);
    }
    forall x, c | Alive(h', m', cw, x) && h'[x].LClosure? && c in h'[x].upvals ensures c in h' && IsUpval(h'[c]) {
      assert Alive(h, m, cw, x);
      SameClosure(h, h', x);
      ClosureEdges(h, x, c);
      assert Alive(h, m, cw, c);
      SameUpval(h, h', c);
    }
    assert s'.Roots() == s.Roots();
    assert forall r :: r in s.Roots() ==> Alive(h, m, cw, r);
  }

  lemma ClosureEdges(h: Heap, x: Ref, c: Ref)
    requires x in h && h[x].LClosure? && c in h[x].upvals
    ensures c in Edges(h, x)
  {
  }

  lemma SameClosure(h: Heap, h': Heap, x: Ref)
    requires x in h && x in h' && h'[x].LClosure? && SameObject(h, h', x)
    ensures h[x] == h'[x]
  {
  }

  lemma SameUpval(h: Heap, h': Heap, x: Ref)
    requires x in h && IsUpval(h[x]) && SameObject(h, h', x)
    ensures x in h' && IsUpval(h'[x])
  {
  }

  function Release(s: State, o: Ref): State {
    s.(heap := s.heap - {o}, marked := s.marked - {o})
  }

  lemma ReleaseLive(s: State, o: Ref)
    requires Live(s) && s.marked.Keys == s.heap.Keys && UpvalsOk(s.heap, s.uvhead)
    requires Doomed(s, o)
    ensures Live(Release(s, o)) && KeepsAlive(s, Release(s, o))
  {
    hide UpvalsOk, SameObject, Edges, AliveClosed;
    var s' := Release(s, o);
    forall x | Alive(s.heap, s.marked, s.currentwhite, x)
      ensures SameObject(s.heap, s'.heap, x) && Alive(s'.heap, s'.marked, s.currentwhite, x)
    {
      FreeOthers(s.heap, s.uvhead, o, x);
    }
    KeepsLive(s, s');
  }

  /** Releasing an object that is in no swept position leaves the swept part white. */
  lemma ReleaseSwept(s: State, o: Ref)
    requires SweptRoots(s.heap, s.marked, s.currentwhite, s.rootgc, s.sweepgc)
    requires SweptStrings(s.marked, s.currentwhite, s.strt, s.sweepstrgc)
    requires Doomed(s, o)
    ensures SweptRoots(s.heap - {o}, s.marked - {o}, s.currentwhite, s.rootgc, s.sweepgc)
    ensures SweptStrings(s.marked - {o}, s.currentwhite, s.strt, s.sweepstrgc)
  {
  }

  // ---------- Strings ----------

  function FreeString(s: State, i: nat, k: nat): State
    requires i < |s.strt| && k < |s.strt[i]|
  {
    Release(s, s.strt[i][k]).(strt := s.strt[i := s.strt[i][..k] + s.strt[i][k + 1..]])
  }

  lemma FreeStringInv(s: State, k: nat)
    requires Inv(s) && s.phase.SweepString? && k < |s.strt[s.sweepstrgc]|
    requires Doomed(s, s.strt[s.sweepstrgc][k])
    ensures Inv(FreeString(s, s.sweepstrgc, k)) && KeepsAlive(s, FreeString(s, s.sweepstrgc, k))
  {
    hide RootListOk, UpvalsOk, StringsOk, SweptRoots, SweptStrings, AliveClosed, KeepsAlive, Edges;
    var i := s.sweepstrgc;
    var o := s.strt[i][k];
    var s' := FreeString(s, i, k);
    assert o in s.strt[i];
    assert s.heap[o].Str? by { StringIn(s.heap, s.strt, i, o); }
    ReleaseLive(s, o);
    assert KeepsAlive(s, s') by { KeepsSame(s, Release(s, o), s'); }
    assert Live(s') by { LiveSame(Release(s, o), s'); }
    ReleaseSwept(s, o);
    assert StringsOk(s'.heap, s'.strt) by { FreeStringOk(s.heap, s.strt, i, k); }
    assert RootListOk(s'.heap, s'.rootgc, s'.freeing) by { RootMinus(s.heap, s.rootgc, s.freeing, o); }
    assert UpvalsOk(s'.heap, s'.uvhead) by { UpvalsMinus(s.heap, s.uvhead, o); }
    assert SweptStrings(s'.marked, s'.currentwhite, s'.strt, s'.sweepstrgc) by {
      ShrinkSwept(s'.marked, s'.currentwhite, s.strt, s'.strt[i], i);
    }
  }

  lemma StringIn(h: Heap, strt: seq<seq<Ref>>, i: nat, o: Ref)
    requires StringsOk(h, strt) && i < |strt| && o in strt[i]
    ensures o in h && h[o].Str?
  {
  }

  lemma KeepsSame(s: State, t: State, t': State)
    requires KeepsAlive(s, t)
    requires SameRoots(t, t') && t'.heap == t.heap && t'.marked == t.marked
    requires t'.currentwhite == t.currentwhite && t'.fixed == t.fixed
    ensures KeepsAlive(s, t')
  {
  }

  lemma LiveSame(t: State, t': State)
    requires Live(t)
    requires SameRoots(t, t') && t'.heap == t.heap && t'.marked == t.marked && t'.currentwhite == t.currentwhite
    ensures Live(t')
  {
    assert t.Roots() == t'.Roots();
  }

  lemma ShrinkSwept(m: Marks, cw: bool, strt: seq<seq<Ref>>, chain: seq<Ref>, i: nat)
    requires i < |strt| && SweptStrings(m, cw, strt, i)
    ensures SweptStrings(m, cw, strt[i := chain], i)
  {
  }

  lemma FreeStringOk(h: Heap, strt: seq<seq<Ref>>, i: nat, k: nat)
    requires StringsOk(h, strt) && i < |strt| && k < |strt[i]|
    ensures StringsOk(h - {strt[i][k]}, strt[i := strt[i][..k] + strt[i][k + 1..]])
  {
    hide ChainsHoldStrings, StringsInChains;
    var o, chain := strt[i][k], strt[i][..k] + strt[i][k + 1..];
    NoDupRemove(strt[i], k);
    assert o in strt[i];
    assert Interned(h - {o});
    ShrinkHolds(h, strt, i, chain, o);
    ShrinkIn(h, strt, i, chain, o);
  }

  lemma ShrinkHolds(h: Heap, strt: seq<seq<Ref>>, i: nat, chain: seq<Ref>, o: Ref)
    requires |strt| > 0 && i < |strt| && ChainsHoldStrings(h, strt)
    requires o in strt[i] && forall x :: x in chain <==> x != o && x in strt[i]
    ensures ChainsHoldStrings(h - {o}, strt[i := chain])
  {
    hide Chain;
    var strt' := strt[i := chain];
    assert Chain(h[o].hash, |strt|) == i;
    forall j, x | 0 <= j < |strt'| && x in strt'[j]
      ensures x in h - {o} && h[x].Str? && Chain(h[x].hash, |strt|) == j
    {
      assert x in strt[j];
    }
  }

  lemma ShrinkIn(h: Heap, strt: seq<seq<Ref>>, i: nat, chain: seq<Ref>, o: Ref)
    requires |strt| > 0 && i < |strt| && StringsInChains(h, strt)
    requires o in strt[i] && forall x :: x in chain <==> x != o && x in strt[i]
    ensures StringsInChains(h - {o}, strt[i := chain])
  {
    hide Chain;
  }

  lemma RootMinus(h: Heap, rootgc: seq<Ref>, freeing: set<Ref>, o: Ref)
    requires RootListOk(h, rootgc, freeing) && o in h && !InRoot(h[o])
    ensures RootListOk(h - {o}, rootgc, freeing)
  {
  }

  lemma UpvalsMinus(h: Heap, uvhead: seq<Ref>, o: Ref)
    requires UpvalsOk(h, uvhead) && o in h && !h[o].OpenUp?
    requires h[o].Thread? ==> h[o].openupval == []
    ensures UpvalsOk(h - {o}, uvhead)
  {
    var h' := h - {o};
    forall t | t in h' && h'[t].Thread? ensures ThreadOk(h', t) {
      assert ThreadOk(h, t);
    }
    forall u | u in h' && h'[u].OpenUp? ensures CellOk(h', u) {
      assert CellOk(h, u);
    }
  }

  // ---------- Objects of `rootgc` ----------

  function Unlink(s: State): State
    requires s.sweepgc < |s.rootgc|
  {
    s.(rootgc := s.rootgc[..s.sweepgc] + s.rootgc[s.sweepgc + 1..], freeing := {s.rootgc[s.sweepgc]})
  }

  lemma UnlinkInv(s: State)
    requires Inv(s) && s.phase.Sweep? && s.freeing == {} && s.sweepgc < |s.rootgc|
    ensures Inv(Unlink(s)) && KeepsAlive(s, Unlink(s))
    ensures s.rootgc[s.sweepgc] in s.heap && InRoot(s.heap[s.rootgc[s.sweepgc]])
  {
    hide UpvalsOk, StringsOk, SweptStrings, AliveClosed, Edges, NoDup;
    var s' := Unlink(s);
    assert s.rootgc[s.sweepgc] in s.rootgc;
    assert RootListOk(s'.heap, s'.rootgc, s'.freeing) by { NoDupRemove(s.rootgc, s.sweepgc); }
    assert SweptRoots(s'.heap, s'.marked, s'.currentwhite, s'.rootgc, s'.sweepgc);
    assert Live(s') by { LiveSame(s, s'); }
    assert Sweeping(s');
  }

  lemma ReleaseInv(s: State, o: Ref)
    requires Inv(s) && s.phase.Sweep? && s.freeing == {o} && Doomed(s, o) && InRoot(s.heap[o])
    ensures Inv(Release(s, o).(freeing := {}))
    ensures KeepsAlive(s, Release(s, o).(freeing := {}))
  {
    hide RootListOk, UpvalsOk, StringsOk, SweptRoots, SweptStrings, AliveClosed, KeepsAlive, Edges;
    var s' := Release(s, o).(freeing := {});
    ReleaseLive(s, o);
    assert KeepsAlive(s, s') by { KeepsSame(s, Release(s, o), s'); }
    assert Live(s') by { LiveSame(Release(s, o), s'); }
    ReleaseSwept(s, o);
    assert s.running in s.Roots() && s.mainthread in s.Roots();
    assert RootListOk(s'.heap, s'.rootgc, {}) by { RootDone(s.heap, s.rootgc, o); }
    assert StringsOk(s'.heap, s'.strt) by { StringsMinus(s.heap, s.strt, o); }
    assert UpvalsOk(s'.heap, s'.uvhead) by { UpvalsMinus(s.heap, s.uvhead, o); }
  }

  lemma RootDone(h: Heap, rootgc: seq<Ref>, o: Ref)
    requires RootListOk(h, rootgc, {o})
    ensures RootListOk(h - {o}, rootgc, {})
  {
  }

  lemma StringsMinus(h: Heap, strt: seq<seq<Ref>>, o: Ref)
    requires StringsOk(h, strt) && o in h && !h[o].Str?
    ensures StringsOk(h - {o}, strt)
  {
    hide Chain, NoDup;
    assert Interned(h - {o});
    hide Interned;
  }

  // ---------- Open upvalues ----------

  /** The thread `t` without the `j`-th of its open upvalues. */
  function DropCell(t: Object, j: nat): Object
    requires t.Thread? && j < |t.openupval|
  {
    t.(openupval := t.openupval[..j] + t.openupval[j + 1..])
  }

  /** `h'` is `h` after the `j`-th open upvalue of `t` was freed, or closed with its value. */
  ghost predicate CellGone(h: Heap, h': Heap, t: Ref, j: nat) {
    && t in h && h[t].Thread? && j < |h[t].openupval|
    && var u := h[t].openupval[j];
    && u in h && h[u].OpenUp?
    && t in h' && h'[t] == DropCell(h[t], j)
    && (forall x :: x in h && x != u && x != t ==> x in h' && h'[x] == h[x])
    && (forall x :: x in h' ==> x in h)
    && (u in h' ==> h'[u] == ClosedUp(UpvalValue(h, h[u])))
  }

  lemma CellGoneUpvals(h: Heap, h': Heap, uvhead: seq<Ref>, uvhead': seq<Ref>, t: Ref, j: nat)
    requires UpvalsOk(h, uvhead) && CellGone(h, h', t, j)
    requires NoDup(uvhead') && forall x :: x in uvhead' <==> x in uvhead && x != h[t].openupval[j]
    ensures UpvalsOk(h', uvhead')
  {
    assert t in h && h[t].Thread?;
    hide ThreadOk, CellOk, CellGone, NoDup;
    assert ThreadOk(h, t);
    forall x | x in h' && h'[x].Thread? ensures ThreadOk(h', x) {
      OpenKept(h, h', t, j);
      ThreadKept(h, h', t, j, x);
    }
    forall x | x in h' && h'[x].OpenUp? ensures CellOk(h', x) {
      CellKept(h, h', t, j, x);
    }
    assert forall x :: x in h' && h'[x].OpenUp? ==> x in uvhead' by { OpenKept(h, h', t, j); }
    assert forall x :: x in uvhead' ==> x in h' && h'[x].OpenUp? by { OpenKept(h, h', t, j); }
  }

  lemma OpenKept(h: Heap, h': Heap, t: Ref, j: nat)
    requires CellGone(h, h', t, j)
    ensures forall x :: (x in h' && h'[x].OpenUp?) <==> (x in h && h[x].OpenUp? && x != h[t].openupval[j])
    ensures forall x :: x in h' && h'[x].Thread? ==> x in h && h[x].Thread?
  {
  }

  lemma ThreadKept(h: Heap, h': Heap, t: Ref, j: nat, x: Ref)
    requires CellGone(h, h', t, j) && x in h' && h'[x].Thread?
    requires ThreadOk(h, t) && (x in h && h[x].Thread? ==> ThreadOk(h, x))
    ensures ThreadOk(h', x)
  {
    var us := h[t].openupval;
    CellsDistinct(h, t);
    NoDupRemove(us, j);
    assert us[j] in us;
  }

  lemma CellKept(h: Heap, h': Heap, t: Ref, j: nat, x: Ref)
    requires CellGone(h, h', t, j) && x in h' && h'[x].OpenUp?
    requires x in h && h[x].OpenUp? ==> CellOk(h, x)
    requires ThreadOk(h, t)
    ensures CellOk(h', x)
  {
    CellsDistinct(h, t);
    NoDupRemove(h[t].openupval, j);
  }

  lemma CellsDistinct(h: Heap, t: Ref)
    requires t in h && h[t].Thread? && ThreadOk(h, t)
    ensures NoDup(h[t].openupval)
  {
  }

  lemma CellGoneSame(h: Heap, h': Heap, uvhead: seq<Ref>, t: Ref, j: nat, x: Ref)
    requires UpvalsOk(h, uvhead) && CellGone(h, h', t, j)
    requires x in h && x in h'
    ensures SameObject(h, h', x)
  {
    if h[x].OpenUp? {
      assert CellOk(h, x) && ThreadOk(h, h[x].thread);
    }
  }

  lemma CellGoneStrings(h: Heap, h': Heap, strt: seq<seq<Ref>>, t: Ref, j: nat)
    requires StringsOk(h, strt) && CellGone(h, h', t, j)
    ensures StringsOk(h', strt)
  {
    hide Chain, NoDup;
    assert Interned(h');
    hide Interned;
  }

  /** The same swept positions are white if the colours of the swept objects did not change. */
  lemma CellGoneSwept(s: State, s': State, t: Ref, j: nat)
    requires CellGone(s.heap, s'.heap, t, j)
    requires SweptRoots(s.heap, s.marked, s.currentwhite, s.rootgc, s.sweepgc) && s'.currentwhite == s.currentwhite
    requires forall x :: Fresh(s.marked, s.currentwhite, x) ==> Fresh(s'.marked, s.currentwhite, x)
    requires s'.rootgc == s.rootgc && s'.sweepgc == s.sweepgc
    ensures SweptRoots(s'.heap, s'.marked, s'.currentwhite, s'.rootgc, s'.sweepgc)
  {
    forall i | 0 <= i < s'.sweepgc && i < |s'.rootgc|
      ensures Fresh(s'.marked, s'.currentwhite, s'.rootgc[i])
      ensures s'.rootgc[i] in s'.heap && s'.heap[s'.rootgc[i]].Thread? ==>
                forall u :: u in s'.heap[s'.rootgc[i]].openupval ==> Fresh(s'.marked, s'.currentwhite, u)
    {
      assert Fresh(s.marked, s.currentwhite, s.rootgc[i]);
    }
  }

  /** A dead open upvalue leaves its thread, the list of all open upvalues, and the heap. */
  ghost predicate CellFreed(s: State, s': State, t: Ref, j: nat) {
    && CellGone(s.heap, s'.heap, t, j)
    && var u := s.heap[t].openupval[j];
    && u !in s'.heap && u in s.marked && IsDead(s.marked, s.currentwhite, u)
    && s'.marked == s.marked - {u}
    && NoDup(s'.uvhead) && (forall x :: x in s'.uvhead <==> x in s.uvhead && x != u)
    && s' == s.(heap := s'.heap, marked := s'.marked, uvhead := s'.uvhead)
  }

  lemma CellFreedInv(s: State, s': State, t: Ref, j: nat)
    requires Inv(s) && (s.phase.SweepString? || s.phase.Sweep?) && CellFreed(s, s', t, j)
    ensures Inv(s') && KeepsAlive(s, s')
  {
    hide RootListOk, UpvalsOk, StringsOk, SweptRoots, SweptStrings, AliveClosed, Edges, SameObject;
    var u := s.heap[t].openupval[j];
    forall x | Alive(s.heap, s.marked, s.currentwhite, x)
      ensures SameObject(s.heap, s'.heap, x) && Alive(s'.heap, s'.marked, s.currentwhite, x)
    {
      CellGoneSame(s.heap, s'.heap, s.uvhead, t, j, x);
    }
    assert Live(s') by { KeepsLive(s, s'); }
    assert RootListOk(s'.heap, s'.rootgc, s'.freeing) by { RootGone(s.heap, s'.heap, s.rootgc, s.freeing, t, j); }
    assert StringsOk(s'.heap, s'.strt) by { CellGoneStrings(s.heap, s'.heap, s.strt, t, j); }
    assert UpvalsOk(s'.heap, s'.uvhead) by { CellGoneUpvals(s.heap, s'.heap, s.uvhead, s'.uvhead, t, j); }
    assert Sweeping(s') by {
      CellGoneSwept(s, s', t, j);
      SweptMinus(s, u);
    }
  }

  lemma SweptMinus(s: State, u: Ref)
    requires SweptStrings(s.marked, s.currentwhite, s.strt, s.sweepstrgc) && u in s.marked &&
        IsDead(s.marked, s.currentwhite, u)
    ensures SweptStrings(s.marked - {u}, s.currentwhite, s.strt, s.sweepstrgc)
  {
  }

  lemma RootGone(h: Heap, h': Heap, rootgc: seq<Ref>, freeing: set<Ref>, t: Ref, j: nat)
    requires RootListOk(h, rootgc, freeing) && CellGone(h, h', t, j) && h[t].openupval[j] !in h'
    ensures RootListOk(h', rootgc, freeing)
  {
  }

  /** Where the sweep pointer is after a new object was chained in front of `rootgc`: the pointer is
      the address of a `next` field, so it moves along unless it is the address of `rootgc` itself. */
  function Shifted(sweepgc: nat): nat {
    if sweepgc == 0 then 0 else sweepgc + 1
  }

  /** A live open upvalue takes over its value and moves to `rootgc` with colour `c`. */
  ghost predicate CellClosed(s: State, s': State, t: Ref, j: nat, c: Colour) {
    && CellGone(s.heap, s'.heap, t, j)
    && var u := s.heap[t].openupval[j];
    && u in s'.heap && Alive(s.heap, s.marked, s.currentwhite, u)
    && s'.marked == s.marked[u := c]
    && NoDup(s'.uvhead) && (forall x :: x in s'.uvhead <==> x in s.uvhead && x != u)
    && s' == s.(heap := s'.heap, marked := s'.marked, uvhead := s'.uvhead,
                rootgc := [u] + s.rootgc, sweepgc := Shifted(s.sweepgc))
  }

  lemma CellClosedStructure(s: State, s': State, t: Ref, j: nat, c: Colour)
    requires Structure(s) && CellClosed(s, s', t, j, c)
    ensures Structure(s')
  {
    hide RootListOk, UpvalsOk, StringsOk, NoDup;
    assert RootListOk(s'.heap, s'.rootgc, s'.freeing) by { RootClosed(s.heap, s'.heap, s.rootgc, s.freeing, t, j); }
    assert StringsOk(s'.heap, s'.strt) by { CellGoneStrings(s.heap, s'.heap, s.strt, t, j); }
    assert UpvalsOk(s'.heap, s'.uvhead) by { CellGoneUpvals(s.heap, s'.heap, s.uvhead, s'.uvhead, t, j); }
  }

  lemma RootClosed(h: Heap, h': Heap, rootgc: seq<Ref>, freeing: set<Ref>, t: Ref, j: nat)
    requires RootListOk(h, rootgc, freeing) && CellGone(h, h', t, j) && h[t].openupval[j] in h'
    ensures RootListOk(h', [h[t].openupval[j]] + rootgc, freeing)
  {
  }

  lemma CellClosedKeeps(s: State, s': State, t: Ref, j: nat, c: Colour)
    requires Live(s) && UpvalsOk(s.heap, s.uvhead) && s.marked.Keys == s.heap.Keys
    requires CellClosed(s, s', t, j, c) && c != White(!s.currentwhite)
    ensures KeepsAlive(s, s') && Live(s')
  {
    hide UpvalsOk, AliveClosed, Edges, SameObject, NoDup;
    forall x | Alive(s.heap, s.marked, s.currentwhite, x)
      ensures SameObject(s.heap, s'.heap, x) && Alive(s'.heap, s'.marked, s.currentwhite, x)
    {
      CellGoneSame(s.heap, s'.heap, s.uvhead, t, j, x);
    }
    KeepsLive(s, s');
  }

  lemma CellClosedSwept(s: State, s': State, t: Ref, j: nat)
    requires CellClosed(s, s', t, j, White(s.currentwhite))
    requires SweptRoots(s.heap, s.marked, s.currentwhite, s.rootgc, s.sweepgc)
    requires SweptStrings(s.marked, s.currentwhite, s.strt, s.sweepstrgc)
    ensures SweptRoots(s'.heap, s'.marked, s'.currentwhite, s'.rootgc, s'.sweepgc)
    ensures SweptStrings(s'.marked, s.currentwhite, s.strt, s.sweepstrgc)
  {
    hide NoDup;
    var u := s.heap[t].openupval[j];
    assert forall x :: Fresh(s.marked, s.currentwhite, x) ==> Fresh(s'.marked, s.currentwhite, x);
    forall i | 0 <= i < s'.sweepgc && i < |s'.rootgc|
      ensures Fresh(s'.marked, s'.currentwhite, s'.rootgc[i])
      ensures s'.rootgc[i] in s'.heap && s'.heap[s'.rootgc[i]].Thread? ==>
                forall x :: x in s'.heap[s'.rootgc[i]].openupval ==> Fresh(s'.marked, s'.currentwhite, x)
    {
      if i == 0 {
        assert s'.heap[u].ClosedUp?;
      } else {
        var o := s.rootgc[i - 1];
        assert s'.rootgc[i] == o && Fresh(s.marked, s.currentwhite, o);
        if o in s'.heap && s'.heap[o].Thread? {
          CellGoneCells(s.heap, s'.heap, t, j, o);
        }
      }
    }
  }

  lemma CellGoneCells(h: Heap, h': Heap, t: Ref, j: nat, o: Ref)
    requires CellGone(h, h', t, j) && o in h' && h'[o].Thread?
    ensures o in h && h[o].Thread? && forall x :: x in h'[o].openupval ==> x in h[o].openupval
  {
  }

  /** Outside the propagate phase a closed upvalue ends up with the current white. */
  lemma CellClosedInv(s: State, s': State, t: Ref, j: nat)
    requires Inv(s) && !s.phase.Propagate? && CellClosed(s, s', t, j, White(s.currentwhite))
    ensures Inv(s') && KeepsAlive(s, s')
  {
    hide RootListOk, UpvalsOk, StringsOk, SweptRoots, SweptStrings, AliveClosed, Edges, KeepsAlive, NoDup, Structure,
        Live;
    CellClosedStructure(s, s', t, j, White(s.currentwhite));
    UpvalsOfStructure(s);
    CellClosedKeeps(s, s', t, j, White(s.currentwhite));
    if s.phase.SweepString? || s.phase.Sweep? {
      CellClosedSwept(s, s', t, j);
    }
  }

  lemma UpvalsOfStructure(s: State)
    requires Structure(s)
    ensures UpvalsOk(s.heap, s.uvhead) && s.marked.Keys == s.heap.Keys
  {
  }

  // ---------- Moving on ----------

  lemma AdvanceSweepInv(s: State)
    requires Inv(s) && s.phase.Sweep? && s.sweepgc < |s.rootgc|
    requires Fresh(s.marked, s.currentwhite, s.rootgc[s.sweepgc])
    requires var o := s.rootgc[s.sweepgc];
             o in s.heap && s.heap[o].Thread? ==> forall u :: u in s.heap[o].openupval ==>
                 Fresh(s.marked, s.currentwhite, u)
    ensures Inv(s.(sweepgc := s.sweepgc + 1))
    ensures KeepsAlive(s, s.(sweepgc := s.sweepgc + 1))
  {
    hide RootListOk, UpvalsOk, StringsOk, SweptStrings, AliveClosed, Edges, Alive;
    var s' := s.(sweepgc := s.sweepgc + 1);
    assert Live(s') by { LiveSame(s, s'); }
    KeepsRefl(s);
    KeepsSame(s, s, s');
    assert SweptRoots(s'.heap, s'.marked, s'.currentwhite, s'.rootgc, s'.sweepgc);
  }

  lemma KeepsRefl(s: State)
    requires s.marked.Keys == s.heap.Keys
    ensures KeepsAlive(s, s)
  {
    forall o | Alive(s.heap, s.marked, s.currentwhite, o) ensures SameObject(s.heap, s.heap, o) {
    }
  }

  lemma NextChainInv(s: State)
    requires Inv(s) && s.phase.SweepString?
    requires forall o :: o in s.strt[s.sweepstrgc] ==> Fresh(s.marked, s.currentwhite, o)
    ensures var s' := s.(sweepstrgc := s.sweepstrgc + 1,
                         phase := if s.sweepstrgc + 1 >= |s.strt| then Sweep else SweepString);
            Inv(s') && KeepsAlive(s, s')
  {
    hide RootListOk, UpvalsOk, SweptRoots, AliveClosed, Edges, Alive;
    var s' := s.(sweepstrgc := s.sweepstrgc + 1,
                 phase := if s.sweepstrgc + 1 >= |s.strt| then Sweep else SweepString);
    assert Live(s') by { LiveSame(s, s'); }
    KeepsRefl(s);
    KeepsSame(s, s, s');
  }

  /** At the end of the sweep every object carries the current white. */
  lemma SweepDone(s: State)
    requires Inv(s) && s.phase.Sweep? && s.sweepgc == |s.rootgc| && s.freeing == {}
    ensures Inv(s.(phase := Finalize)) && KeepsAlive(s, s.(phase := Finalize))
  {
    hide AliveClosed, Edges, Alive, Chain;
    var s' := s.(phase := Finalize);
    forall o | o in s.heap ensures Fresh(s.marked, s.currentwhite, o) {
      if s.heap[o].Str? {
        assert o in s.strt[Chain(s.heap[o].hash, |s.strt|)];
      } else if s.heap[o].OpenUp? {
        assert CellOk(s.heap, o);
        var t := s.heap[o].thread;
        assert t in s.rootgc;
      } else {
        assert o in s.rootgc;
      }
    }
    assert Live(s') by { LiveSame(s, s'); }
    KeepsRefl(s);
    KeepsSame(s, s, s');
  }

  lemma InvKeys(s: State)
    requires Inv(s)
    ensures s.marked.Keys == s.heap.Keys && s.sweepgc <= |s.rootgc|
  {
  }

  lemma CellFacts(s: State, t: Ref, i: nat)
    requires Inv(s) && t in s.heap && s.heap[t].Thread? && i < |s.heap[t].openupval|
    ensures var u := s.heap[t].openupval[i];
            u in s.heap && s.heap[u].OpenUp? && u in s.marked && u in s.uvhead && u != t && NoDup(s.uvhead)
    ensures s.heap[s.heap[t].openupval[i]].thread == t && s.marked.Keys == s.heap.Keys
    ensures forall k :: 0 <= k < |s.heap[t].openupval| && k != i ==> s.heap[t].openupval[k] != s.heap[t].openupval[i]
    ensures s.heap[t].openupval[i] !in s.fixed
  {
    assert ThreadOk(s.heap, t);
    assert s.heap[t].openupval[i] in s.heap[t].openupval;
    CellsDistinct(s.heap, t);
  }

  // ---------- Closing an upvalue while marking ----------

  /** The colour a live open upvalue has right after it was closed. */
  function ClosedColour(phase: Phase, cw: bool, c: Colour): Colour {
    if c.Gray? then (if phase.Propagate? then Black else White(cw)) else c
  }

  lemma NotDeadNotBlack(s: State, u: Ref)
    requires Inv(s) && u in s.heap && s.heap[u].OpenUp? && u in s.marked && !IsDead(s.marked, s.currentwhite, u)
    ensures !s.marked[u].Black?
    ensures s.phase.Propagate? || ClosedColour(s.phase, s.currentwhite, s.marked[u]) == White(s.currentwhite)
  {
  }

  /** Blackening a gray upvalue as it is closed leaves only that upvalue pending. */
  lemma ClosedMarkInv(s: State, h': Heap, t: Ref, j: nat, X: set<Ref>)
    requires MarkInv(s.heap, s.marked, s.currentwhite, s.gray, s.grayagain, X, {}) && UpvalsOk(s.heap, s.uvhead)
    requires CellGone(s.heap, h', t, j) && s.heap[t].openupval[j] in h' && s.heap[t].openupval[j] in X
    ensures var u := s.heap[t].openupval[j];
            MarkInv(h', s.marked[u := ClosedColour(Propagate, s.currentwhite, s.marked[u])],
                    s.currentwhite, s.gray, s.grayagain, X, {})
  {
    var h, u := s.heap, s.heap[t].openupval[j];
    var c := ClosedColour(Propagate, s.currentwhite, s.marked[u]);
    forall x | x in h ensures x in h' && forall c :: c in Edges(h', x) <==> c in Edges(h, x) {
      CellGoneSame(h, h', s.uvhead, t, j, x);
      SameEdges(h, h', x);
    }
    ClosedGray(h, h', s.marked, s.gray, s.grayagain, t, j, c);
    assert h'.Keys == h.Keys;
    hide Edges, UpvalsOk, GrayOk, CellGone;
    ClosedSettled(h, h', s.marked, Elems(s.gray) + X, u, c);
  }

  lemma ClosedSettled(h: Heap, h': Heap, m: Marks, X: set<Ref>, u: Ref, c: Colour)
    requires m.Keys == h.Keys == h'.Keys && Settled(h, m, X) && HeapClosed(h)
    requires forall x, y :: x in h ==> (y in Edges(h', x) <==> y in Edges(h, x))
    requires u in h && u in X && (m[u].White? ==> c == m[u]) && (!m[u].White? ==> !c.White?)
    ensures Settled(h', m[u := c], X) && HeapClosed(h')
  {
    hide Edges;
  }

  lemma ClosedGray(h: Heap, h': Heap, m: Marks, gray: seq<Ref>, grayagain: seq<Ref>, t: Ref, j: nat, c: Colour)
    requires m.Keys == h.Keys && GrayOk(h, m, gray, grayagain, {}) && CellGone(h, h', t, j) && h[t].openupval[j] in h'
    requires c == ClosedColour(Propagate, true, m[h[t].openupval[j]])
    ensures h'.Keys == h.Keys && GrayOk(h', m[h[t].openupval[j] := c], gray, grayagain, {})
  {
    hide NoDup;
    assert h'.Keys == h.Keys;
  }

  /** A dead thread whose open upvalues have all been swept: none of them is dead. */
  ghost predicate DyingThread(h: Heap, m: Marks, cw: bool, t: Ref) {
    && t in h && h[t].Thread? && t in m && IsDead(m, cw, t)
    && forall u :: u in h[t].openupval ==> Fresh(m, cw, u)
  }

  lemma DyingCell(s: State, t: Ref)
    requires DyingThread(s.heap, s.marked, s.currentwhite, t) && s.heap[t].openupval != []
    ensures s.heap[t].openupval[0] in s.marked && !IsDead(s.marked, s.currentwhite, s.heap[t].openupval[0])
  {
    assert s.heap[t].openupval[0] in s.heap[t].openupval;
  }

  lemma DyingNext(s: State, s': State, t: Ref)
    requires DyingThread(s.heap, s.marked, s.currentwhite, t) && s.heap[t].openupval != []
    requires t in s'.heap && s'.heap[t] == DropCell(s.heap[t], 0) && s'.currentwhite == s.currentwhite
    requires t != s.heap[t].openupval[0] && s.heap[t].openupval[0] !in s'.heap[t].openupval
    requires forall x :: x in s.marked && x != s.heap[t].openupval[0] ==> x in s'.marked && s'.marked[x] == s.marked[x]
    ensures DyingThread(s'.heap, s'.marked, s'.currentwhite, t)
  {
    forall u | u in s'.heap[t].openupval ensures Fresh(s'.marked, s'.currentwhite, u) {
      assert u in s.heap[t].openupval;
      assert Fresh(s.marked, s.currentwhite, u);
    }
  }

  lemma OpenUpsGone(h: Heap, h': Heap, t: Ref, j: nat)
    requires CellGone(h, h', t, j)
    ensures OpenUps(h) == OpenUps(h') + {h[t].openupval[j]}
  {
  }

  lemma RootFacts(s: State)
    requires Inv(s) && s.sweepgc < |s.rootgc|
    ensures s.rootgc[s.sweepgc] in s.heap && InRoot(s.heap[s.rootgc[s.sweepgc]])
    ensures s.marked.Keys == s.heap.Keys
  {
    assert s.rootgc[s.sweepgc] in s.rootgc;
  }

  /** The one fixed object of `rootgc`, the main thread, is never dead. */
  lemma SurvivorAlive(s: State, o: Ref)
    requires Inv(s) && o in s.heap && o in s.marked && InRoot(s.heap[o])
    requires !IsDead(s.marked, s.currentwhite, o) || o in s.fixed
    ensures Alive(s.heap, s.marked, s.currentwhite, o)
  {
    assert s.mainthread in s.Roots();
  }

  // ---------- What the program sees of a collector step ----------

  /** The same objects are reachable, and each of them looks the same. */
  ghost predicate Keeps(s: State, s': State) {
    && SameRoots(s, s')
    && Reach(s'.heap, s'.Roots()) == Reach(s.heap, s.Roots())
    && (forall o :: o in Reach(s.heap, s.Roots()) ==> SameObject(s.heap, s'.heap, o))
    && s'.fixed == s.fixed
  }

  lemma KeepsTrans(s: State, t: State, u: State)
    requires Keeps(s, t) && Keeps(t, u)
    ensures Keeps(s, u)
  {
    forall o | o in Reach(s.heap, s.Roots()) ensures SameObject(s.heap, u.heap, o) {
      assert o in Reach(t.heap, t.Roots());
    }
  }

  lemma KeepsHeap(s: State, s': State)
    requires SameRoots(s, s') && s'.heap == s.heap && s'.fixed == s.fixed
    ensures Keeps(s, s')
  {
    assert s.Roots() == s'.Roots();
    forall o | o in s.heap ensures SameObject(s.heap, s.heap, o) {
    }
  }

  /** Keeping every object that is not dead keeps everything the program can reach. */
  lemma AliveKeeps(s: State, s': State)
    requires Live(s) && KeepsAlive(s, s')
    ensures Keeps(s, s')
  {
    hide SameObject, Edges;
    var S := AliveSet(s.heap, s.marked, s.currentwhite);
    assert s.Roots() == s'.Roots();
    assert s.Roots() <= S by {
      assert forall r :: r in s.Roots() ==> Alive(s.heap, s.marked, s.currentwhite, r);
    }
    forall o, c | o in S && c in Edges(s.heap, o) ensures c in S {
      assert Alive(s.heap, s.marked, s.currentwhite, o);
      assert Alive(s.heap, s.marked, s.currentwhite, c);
    }
    forall o | o in S ensures SameObject(s.heap, s'.heap, o) && o in s'.heap {
      assert Alive(s.heap, s.marked, s.currentwhite, o);
      assert Alive(s'.heap, s'.marked, s.currentwhite, o);
    }
    forall o, c | o in S ensures c in Edges(s.heap, o) <==> c in Edges(s'.heap, o) {
      SameEdges(s.heap, s'.heap, o);
    }
    ReachAgree(s.heap, s'.heap, s.Roots(), S);
    ReachInside(s.heap, s.Roots(), S);
  }

  lemma ChainFacts(s: State)
    requires Inv(s) && s.phase.SweepString?
    ensures s.marked.Keys == s.heap.Keys && s.sweepstrgc < |s.strt| && s.freeing == {}
    ensures forall o :: o in s.strt[s.sweepstrgc] ==> o in s.heap && s.heap[o].Str?
    ensures NoDup(s.strt[s.sweepstrgc])
  {
  }

  /** Each step brings the cycle closer to its end: marking works off white and then gray objects, the
      sweep works off chains and then the object list. */
  ghost predicate Progress(s: State, s': State) {
    match s.phase
    case Pause => s'.phase == Propagate
    case Propagate =>
      || s'.phase == SweepString
      || (s'.phase == Propagate &&
          (|Whites(s'.marked)| < |Whites(s.marked)| ||
           (|Whites(s'.marked)| == |Whites(s.marked)| && |s'.gray| < |s.gray|)))
    case SweepString => |s'.strt| == |s.strt| && s'.sweepstrgc == s.sweepstrgc + 1 &&
        s'.phase == (if s'.sweepstrgc == |s.strt| then Sweep else SweepString)
    case Sweep => s'.phase == Finalize || (s'.phase == Sweep && |s'.heap| - s'.sweepgc < |s.heap| - s.sweepgc)
    case Finalize => s'.phase == Pause
  }

  /** `S` bounds what this cycle keeps: everything marked, and later everything not dead, lies in it. */
  ghost predicate Within(s: State, S: set<Ref>) {
    match s.phase
    case Pause => Closed(s.heap, S) && S <= s.heap.Keys && s.Roots() <= S
    case Propagate => Covers(s, S)
    case _ => forall o :: Alive(s.heap, s.marked, s.currentwhite, o) ==> o in S || o in s.fixed
  }

  /** One collector step, from the outside. */
  ghost predicate Stepped(s: State, s': State) {
    Keeps(s, s') && s'.heap.Keys <= s.heap.Keys && Progress(s, s')
  }

  lemma WithinAlive(s: State, s': State, S: set<Ref>)
    requires Within(s, S) && KeepsAlive(s, s') && !s.phase.Pause? && !s.phase.Propagate?
    requires !s'.phase.Pause? && !s'.phase.Propagate?
    ensures Within(s', S)
  {
  }

  lemma StepKeeps(s: State, s': State)
    requires Inv(s) && KeepsAlive(s, s')
    ensures Keeps(s, s') && s'.heap.Keys <= s.heap.Keys && |s'.heap| == |s'.heap.Keys| && |s.heap| == |s.heap.Keys|
  {
    hide Structure, Clean, Marking, Sweeping;
    AliveKeeps(s, s');
  }

  /** After one object has been traversed. */
  lemma PropagatedStep(s: State, s': State, S: set<Ref>)
    requires Inv(s) && Covers(s, S) && s.phase.Propagate? && s.gray != []
    requires s' == s.(marked := s'.marked, gray := s'.gray, grayagain := s'.grayagain)
    requires MarkInv(s.heap, s'.marked, s.currentwhite, s'.gray, s'.grayagain, Elems(s.grayagain) + Elems(s.uvhead), {})
    requires Advance(s.marked, s'.marked, S) && forall o :: o in s.grayagain ==> o in s'.grayagain
    requires Whites(s'.marked) <= Whites(s.marked)
    requires Whites(s'.marked) == Whites(s.marked) ==> s'.gray == s.gray[1..]
    ensures Inv(s') && Covers(s', S) && Progress(s, s')
  {
    MarkingFacts(s);
    AdvanceWider(s.marked, s'.marked, S, s.heap.Keys);
    ElemsMore(s.grayagain, s'.grayagain, Elems(s.uvhead));
    CoversStill(s, s', S);
    WhitesLess(s.marked, s'.marked);
    assert Progress(s, s');
    hide *;
    MarkWeaken(s.heap, s'.marked, s.currentwhite, s'.gray, s'.grayagain, Elems(s.grayagain) + Elems(s.uvhead),
      Elems(s'.grayagain) + Elems(s.uvhead));
    MarkingInv(s, s');
  }

  lemma AdvanceWider(m: Marks, m': Marks, S: set<Ref>, T: set<Ref>)
    requires Advance(m, m', S) && S <= T
    ensures Advance(m, m', T)
  {
  }

  lemma ElemsMore(s: seq<Ref>, t: seq<Ref>, x: set<Ref>)
    requires forall o :: o in s ==> o in t
    ensures Elems(s) + x <= Elems(t) + x
  {
  }

  lemma CoversStill(s: State, s': State, S: set<Ref>)
    requires Covers(s, S) && s' == s.(marked := s'.marked, gray := s'.gray, grayagain := s'.grayagain)
    requires Advance(s.marked, s'.marked, S)
    ensures Covers(s', S)
  {
    hide Closed, Edges;
  }

  /** What is gray is marked, so it lies in `S`. */
  lemma BeforeStep(s: State, S: set<Ref>)
    requires Inv(s) && Covers(s, S) && s.phase.Propagate? && s.gray != []
    ensures s.marked.Keys == s.heap.Keys && s.gray[0] in S && Closed(s.heap, S) && S <= s.heap.Keys
    ensures MarkInv(s.heap, s.marked, s.currentwhite, s.gray, s.grayagain, Elems(s.grayagain) + Elems(s.uvhead), {})
  {
    MarkingFacts(s);
    GrayIsMarked(s.heap, s.marked, s.currentwhite, s.gray, s.grayagain, Elems(s.grayagain) + Elems(s.uvhead));
    hide Inv, MarkInv, Closed;
  }

  lemma WhitesLess(m: Marks, m': Marks)
    requires Whites(m') <= Whites(m)
    ensures |Whites(m')| < |Whites(m)| || Whites(m') == Whites(m)
  {
    var d := Whites(m) - Whites(m');
    if d == {} {
      assert Whites(m) == Whites(m');
    } else {
      var x :| x in d;
      Smaller(Whites(m'), Whites(m) - {x});
    }
  }

  // ---------- A whole collection ----------

  function Rank(p: Phase): nat {
    match p
    case Propagate => 4
    case SweepString => 3
    case Sweep => 2
    case Finalize => 1
    case Pause => 0
  }

  /** Work left in the current phase. */
  ghost function Work(s: State): int {
    match s.phase
    case Propagate => |Whites(s.marked)|
    case SweepString => |s.strt| - s.sweepstrgc
    case Sweep => |s.heap| - s.sweepgc
    case _ => 0
  }

  lemma WorkDecreases(s: State, s': State)
    requires Progress(s, s') && !s.phase.Pause?
    ensures || Rank(s'.phase) < Rank(s.phase)
            || (s'.phase == s.phase && Work(s') < Work(s))
            || (s'.phase == s.phase && Work(s') == Work(s) && |s'.gray| < |s.gray|)
  {
  }

  lemma WorkNat(s: State)
    requires Inv(s)
    ensures Work(s) >= 0
  {
    hide Live, Marking, Clean, StringsOk, UpvalsOk, SweptRoots, SweptStrings;
    NoDupSize(s.rootgc, s.heap.Keys);
    assert |s.heap| == |s.heap.Keys|;
  }

  /** `luaC_fullgc` abandons a marking phase: sweeping then only repaints everything. */
  lemma ResetInv(s: State)
    requires Inv(s) && s.freeing == {} && (s.phase.Pause? || s.phase.Propagate?)
    ensures var s' := s.(sweepstrgc := 0, sweepgc := 0, gray := [], grayagain := [], phase := SweepString);
            Inv(s') && Keeps(s, s')
  {
    hide Keeps, RootListOk, UpvalsOk, AliveClosed, Edges;
    var s' := s.(sweepstrgc := 0, sweepgc := 0, gray := [], grayagain := [], phase := SweepString);
    LiveSame(s, s');
    SweepStart(s');
    KeepsHeap(s, s');
  }

  lemma ReachCovers(s: State)
    requires Live(s)
    ensures var R := Reach(s.heap, s.Roots()); Closed(s.heap, R) && R <= s.heap.Keys && s.Roots() <= R
  {
    hide Edges;
    var S := AliveSet(s.heap, s.marked, s.currentwhite);
    forall o, c | o in S && c in Edges(s.heap, o) ensures c in S {
      assert Alive(s.heap, s.marked, s.currentwhite, o);
      assert Alive(s.heap, s.marked, s.currentwhite, c);
    }
    assert forall r :: r in s.Roots() ==> Alive(s.heap, s.marked, s.currentwhite, r);
    ReachClosed(s.heap, s.Roots(), S);
  }

  lemma InvLive(s: State)
    requires Inv(s)
    ensures Live(s) && Structure(s)
    ensures s.phase.Finalize? || s.phase.Pause? ==> Clean(s)
  {
    hide Live, Structure, Clean, Marking, Sweeping;
  }

  /** After a sweep everything that is left was not dead: it lies in `S`, or is fixed. */
  lemma OnlyWithin(s: State, S: set<Ref>)
    requires Inv(s) && s.phase.Finalize? && Within(s, S)
    ensures s.heap.Keys <= S + s.fixed
  {
    hide Live, RootListOk, StringsOk, UpvalsOk;
    forall o | o in s.heap ensures o in S + s.fixed {
      assert Alive(s.heap, s.marked, s.currentwhite, o);
    }
  }

  lemma SweepGoesOn(s: State, s': State)
    requires Progress(s, s') && (s.phase.SweepString? || s.phase.Sweep?)
    ensures !s'.phase.Pause? && !s'.phase.Propagate?
  {
  }

  lemma PauseAfterFinalize(s: State, s': State)
    requires Progress(s, s')
    ensures s'.phase.Pause? <==> s.phase.Finalize?
  {
  }

  lemma WithinStart(s: State, S: set<Ref>)
    requires s.phase.Propagate? && Covers(s, S)
    ensures Within(s, S)
  {
    hide Covers;
  }

  lemma FullExact(s: State, s': State)
    requires Inv(s') && Keeps(s, s') && s'.phase.Pause?
    requires s'.heap.Keys <= Reach(s.heap, s.Roots()) + s'.fixed
    ensures s'.heap.Keys == Reach(s'.heap, s'.Roots()) + s'.fixed && Clean(s')
  {
    hide Live, RootListOk, StringsOk, UpvalsOk;
  }
}
