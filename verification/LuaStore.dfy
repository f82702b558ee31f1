/**
 What a store of a reference into an object breaks, and how the write barriers repair it.
 */
module LuaStore {
  import opened Seqs
  import opened LuaHeap
  import opened LuaInvariants
  import opened LuaSweep

  function Refs(v: Value): set<Ref> {
    match v
    case Prim(_) => {}
    case Obj(r) => {r}
  }

  /** The objects that may have unmarked successors between two steps of the marking phase. */
  ghost function Pending(s: State): set<Ref> {
    Elems(s.grayagain) + OpenUps(s.heap)
  }

  /** A store into `o` has happened, its barrier has not: while marking, a black `o` may now refer to
      a white object, but only to the one just stored. */
  ghost predicate Stored(s: State, o: Ref, stored: set<Ref>) {
    && Structure(s) && Live(s) && o in s.heap && stored <= s.heap.Keys
    && if s.phase.Propagate? then
         && s.freeing == {}
         && MarkInv(s.heap, s.marked, s.currentwhite, s.gray, s.grayagain, Pending(s) + {o}, {})
         && !s.marked[s.mainthread].White?
         && s.registry in s.heap && !s.marked[s.registry].White?
         && (s.marked[o].Black? ==> forall c :: c in Edges(s.heap, o) && c !in stored ==>
             c in s.heap && !s.marked[c].White?)
       else Inv(s)
  }

  /** While marking: the invariant is its parts. */
  lemma PropagateInv(s: State)
    requires Structure(s) && Live(s) && s.phase.Propagate? && s.freeing == {}
    requires MarkInv(s.heap, s.marked, s.currentwhite, s.gray, s.grayagain, Pending(s), {})
    requires !s.marked[s.mainthread].White? && s.registry in s.heap && !s.marked[s.registry].White?
    ensures Inv(s)
  {
    assert s.marked.Keys == s.heap.Keys && s.mainthread in s.heap;
    hide Structure, Live, MarkInv;
  }

  /** If the barrier's test fails there is nothing to repair. */
  lemma NoBarrier(s: State, o: Ref, stored: set<Ref>)
    requires Stored(s, o, stored)
    requires s.marked[o].Black? ==> forall c :: c in stored ==> !s.marked[c].White?
    ensures Inv(s)
  {
    hide RootListOk, StringsOk, UpvalsOk, Live, Edges;
    if s.phase.Propagate? {
      var X := Pending(s);
      if s.marked[o].Black? {
        MarkFinish(s.heap, s.marked, s.currentwhite, s.gray, s.grayagain, X, {}, o);
      } else if s.marked[o].White? {
        MarkDropWhite(s.heap, s.marked, s.currentwhite, s.gray, s.grayagain, X, o);
      } else {
        MarkDropListed(s.heap, s.marked, s.currentwhite, s.gray, s.grayagain, X, o);
      }
      PropagateInv(s);
    }
  }

  lemma MarkDropListed(h: Heap, m: Marks, cw: bool, gray: seq<Ref>, grayagain: seq<Ref>, X: set<Ref>, o: Ref)
    requires MarkInv(h, m, cw, gray, grayagain, X + {o}, {}) && o in h && m[o].Gray?
    requires X == Elems(grayagain) + OpenUps(h)
    ensures MarkInv(h, m, cw, gray, grayagain, X, {})
  {
    if h[o].Str? {
    } else {
      assert Elems(gray) + (X + {o}) == Elems(gray) + X;
    }
  }

  /** The forward barrier while marking: once the stored object is marked, `o` is settled again. */
  lemma BarrierMarked(s: State, s': State, o: Ref, v: Ref)
    requires Stored(s, o, {v}) && s.phase.Propagate? && s.marked[o].Black?
    requires s' == s.(marked := s'.marked, gray := s'.gray)
    requires MarkInv(s.heap, s'.marked, s.currentwhite, s'.gray, s.grayagain, Pending(s) + {o}, {})
    requires Marked(s.marked, s'.marked, s.heap.Keys) && v in s'.marked && !s'.marked[v].White?
    ensures Inv(s') && KeepsAlive(s, s')
  {
    hide RootListOk, StringsOk, UpvalsOk, Edges, AliveClosed, Settled, GrayOk, HeapClosed;
    MarkFinish(s.heap, s'.marked, s.currentwhite, s'.gray, s.grayagain, Pending(s), {}, o);
    forall x | x in s.heap ensures Alive(s.heap, s'.marked, s.currentwhite, x) <==>
        Alive(s.heap, s.marked, s.currentwhite, x) {
    }
    KeepsRefl(s);
    KeepsColour(s, s');
    KeepsLive(s, s');
    PropagateInv(s');
  }

  lemma KeepsColour(s: State, s': State)
    requires s.marked.Keys == s.heap.Keys
    requires SameRoots(s, s') && s'.currentwhite == s.currentwhite && s'.fixed == s.fixed && s'.heap == s.heap
    requires forall x :: Alive(s.heap, s.marked, s.currentwhite, x) <==> Alive(s.heap, s'.marked, s.currentwhite, x)
    ensures KeepsAlive(s, s')
  {
    KeepsRefl(s);
  }

  /** The backward barrier: the table is gray again and queued for the atomic step. */
  lemma BarrierBack(s: State, t: Ref, stored: set<Ref>)
    requires Stored(s, t, stored) && s.heap[t].Table? && s.marked[t].Black?
    ensures var s' := s.(marked := s.marked[t := Gray], grayagain := [t] + s.grayagain);
            Inv(s') && KeepsAlive(s, s')
  {
    hide RootListOk, StringsOk, UpvalsOk, Edges, AliveClosed;
    var s' := s.(marked := s.marked[t := Gray], grayagain := [t] + s.grayagain);
    assert forall x :: x in s.heap ==> (Alive(s.heap, s'.marked, s.currentwhite, x) <==>
        Alive(s.heap, s.marked, s.currentwhite, x));
    KeepsColour(s, s') by { hide MarkInv, Inv; }
    assert Live(s') by { hide MarkInv, Inv; KeepsLive(s, s'); }
    if s.phase.Propagate? {
      BackMark(s, t);
      PropagateInv(s');
    } else {
      BackSweep(s, t);
    }
  }

  lemma BackMark(s: State, t: Ref)
    requires s.marked.Keys == s.heap.Keys && t in s.heap && s.heap[t].Table? && s.marked[t].Black?
    requires MarkInv(s.heap, s.marked, s.currentwhite, s.gray, s.grayagain, Pending(s) + {t}, {})
    ensures MarkInv(s.heap, s.marked[t := Gray], s.currentwhite, s.gray, [t] + s.grayagain,
                    Elems([t] + s.grayagain) + OpenUps(s.heap), {})
  {
    assert Elems([t] + s.grayagain) == Elems(s.grayagain) + {t};
    assert s.gray + ([t] + s.grayagain) == (s.gray + s.grayagain)[..|s.gray|] + [t] +
        (s.gray + s.grayagain)[|s.gray|..];
    NoDupInsert(s.gray + s.grayagain, |s.gray|, t);
  }

  lemma BackSweep(s: State, t: Ref)
    requires Inv(s) && !s.phase.Propagate? && t in s.heap && s.heap[t].Table? && t in s.marked && s.marked[t].Black?
    ensures s.phase.Sweep? || s.phase.SweepString?
    ensures Sweeping(s.(marked := s.marked[t := Gray], grayagain := [t] + s.grayagain))
  {
    hide Structure, Live;
  }

  lemma StoredFacts(s: State, o: Ref, stored: set<Ref>)
    requires Stored(s, o, stored)
    ensures s.marked.Keys == s.heap.Keys && o in s.heap && stored <= s.heap.Keys
  {
  }

  lemma MarkedIsClosed(s: State, o: Ref, stored: set<Ref>)
    requires Stored(s, o, stored) && s.phase.Propagate?
    ensures Closed(s.heap, s.heap.Keys)
    ensures MarkInv(s.heap, s.marked, s.currentwhite, s.gray, s.grayagain, Pending(s) + {o}, {})
  {
  }

  lemma BlackInSweep(s: State, o: Ref)
    requires Inv(s) && !s.phase.Propagate? && o in s.heap && o in s.marked && s.marked[o].Black?
    ensures s.phase.Sweep? || s.phase.SweepString?
    ensures Alive(s.heap, s.marked, s.currentwhite, o)
  {
    hide Structure, Live;
  }

  /** A freshly closed upvalue is an object into which its value was just stored. */
  lemma ClosedStored(s: State, s1: State, t: Ref, v: Value)
    requires Inv(s) && t in s.heap && s.heap[t].Thread? && s.heap[t].openupval != []
    requires var u := s.heap[t].openupval[0];
             u in s.heap && s.heap[u].OpenUp? && u in s.marked && !s.marked[u].Black? &&
             v == UpvalValue(s.heap, s.heap[u]) &&
             CellClosed(s, s1, t, 0, ClosedColour(s.phase, s.currentwhite, s.marked[u]))
    ensures Stored(s1, s.heap[t].openupval[0], Refs(v))
    ensures KeepsAlive(s, s1)
  {
    hide RootListOk, StringsOk, UpvalsOk, AliveClosed, KeepsAlive, NoDup, Settled, GrayOk, Sweeping, Clean;
    var u := s.heap[t].openupval[0];
    var c := ClosedColour(s.phase, s.currentwhite, s.marked[u]);
    assert Structure(s) && Live(s);
    assert forall r :: r in Edges(s1.heap, u) <==> r in Refs(v);
    ClosedEdges(s, s1, t, v);
    hide Edges, Inv;
    NotDeadNotBlack(s, u);
    UpvalsOfStructure(s);
    CellClosedStructure(s, s1, t, 0, c);
    CellClosedKeeps(s, s1, t, 0, c);
    if s.phase.Propagate? {
      MarkingFacts(s);
      OpenUpsGone(s.heap, s1.heap, t, 0);
      UvheadIsOpenUps(s);
      var X := Elems(s.grayagain) + OpenUps(s.heap);
      assert Pending(s1) + {u} == X;
      ClosedMarkInv(s, s1.heap, t, 0, X);
    } else {
      CellClosedInv(s, s1, t, 0);
    }
  }

  lemma ClosedEdges(s: State, s1: State, t: Ref, v: Value)
    requires Structure(s) && Live(s) && t in s.heap && s.heap[t].Thread? && s.heap[t].openupval != []
    requires var u := s.heap[t].openupval[0];
             u in s.heap && s.heap[u].OpenUp? && v == UpvalValue(s.heap, s.heap[u]) && s1.heap.Keys == s.heap.Keys
    requires Alive(s.heap, s.marked, s.currentwhite, s.heap[t].openupval[0])
    ensures Refs(v) <= s1.heap.Keys
  {
    var u := s.heap[t].openupval[0];
    assert forall r :: r in Refs(v) ==> r in Edges(s.heap, u);
    hide Edges, Structure;
    assert forall r :: r in Refs(v) ==> Alive(s.heap, s.marked, s.currentwhite, r);
  }

  lemma CellClosedFacts(s: State, s1: State, t: Ref)
    requires t in s.heap && s.heap[t].Thread? && s.heap[t].openupval != [] && s.marked.Keys == s.heap.Keys
    requires exists c :: CellClosed(s, s1, t, 0, c)
    ensures t in s1.heap && s1.heap[t] == DropCell(s.heap[t], 0)
    ensures s1.heap.Keys == s.heap.Keys
    ensures var u := s.heap[t].openupval[0];
            u in s.heap && s.heap[u].OpenUp? && u in s1.heap && s1.heap[u] == ClosedUp(UpvalValue(s.heap, s.heap[u]))
    ensures forall x :: x in s.heap && x != t && x != s.heap[t].openupval[0] ==> s1.heap[x] == s.heap[x]
    ensures s1.sweepgc == Shifted(s.sweepgc)
    ensures forall x :: x in s.marked && x != s.heap[t].openupval[0] ==> x in s1.marked && s1.marked[x] == s.marked[x]
  {
  }
}
