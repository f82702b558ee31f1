/**
 The Lua 5.1 incremental collector: `lgc.c` with the parts of `lfunc.c`, `lstring.c` and `lvm.c`
 that store references, as one object whose fields the methods update in place.
 */
module LuaCollector {
  import opened Seqs
  import opened LuaHeap
  import opened LuaInvariants
  import opened LuaSweep
  import opened LuaStore
  import opened LuaMutate
  import opened LuaEvents

  class Collector {
    var heap: Heap
    var marked: Marks
    var fixed: set<Ref>
    var currentwhite: bool
    var phase: Phase
    var gray: seq<Ref>
    var grayagain: seq<Ref>
    var rootgc: seq<Ref>
    var sweepgc: nat
    var strt: seq<seq<Ref>>
    var sweepstrgc: nat
    var uvhead: seq<Ref>
    var mainthread: Ref
    var running: Ref
    var registry: Ref
    var mt: seq<Option<Ref>>

    ghost var freeing: set<Ref>

    ghost function Snap(): State
      reads this
    {
      State(heap, marked, fixed, currentwhite, phase, gray, grayagain, rootgc, sweepgc, strt,
            sweepstrgc, uvhead, mainthread, running, registry, mt, freeing)
    }

    // ---------- Marking ----------

    /** `reallymarkobject`: turn a white object gray or black, marking what it must drag along. */
    method ReallyMark(o: Ref, ghost X: set<Ref>, ghost busy: set<Ref>, ghost S: set<Ref>)
      requires marked.Keys == heap.Keys
      requires MarkInv(heap, marked, currentwhite, gray, grayagain, X, busy)
      requires o in heap && marked[o].White? && o !in busy
      requires forall b :: b in busy && b in heap ==> !marked[b].White?
      requires o in S && Closed(heap, S) && S <= heap.Keys
      modifies this`marked, this`gray
      ensures MarkInv(heap, marked, currentwhite, gray, grayagain, X, busy)
      ensures Marked(old(marked), marked, S) && !marked[o].White?
      ensures Whites(marked) < Whites(old(marked))
      decreases Whites(marked), 1
    {
      hide MarkInv;
      WhitesShrink(marked, o, Gray);
      match heap[o] {
        case Str(_, _) =>
          MarkStart(heap, marked, currentwhite, gray, grayagain, X, busy, o, Gray);
          marked := marked[o := Gray];
          MarkFinish(heap, marked, currentwhite, gray, grayagain, X, busy, o);
        case Udata(_, _) =>      // black at once
          MarkThrough(o, Black, X, busy, S);
        case OpenUp(_, _) =>     // stays gray
          MarkThrough(o, Gray, X, busy, S);
        case ClosedUp(_) =>
          MarkThrough(o, Gray, X, busy, S);
          MarkBlacken(heap, marked, currentwhite, gray, grayagain, X, busy, o);
          marked := marked[o := Black];
        case _ =>
          MarkQueue(heap, marked, currentwhite, gray, grayagain, X, busy, o);
          marked := marked[o := Gray];
          gray := [o] + gray;
      }
    }

    /** Give a white object its first colour and mark what it refers to, without queueing it. */
    method MarkThrough(o: Ref, c: Colour, ghost X: set<Ref>, ghost busy: set<Ref>, ghost S: set<Ref>)
      requires marked.Keys == heap.Keys
      requires MarkInv(heap, marked, currentwhite, gray, grayagain, X, busy)
      requires o in heap && marked[o].White? && FirstColour(heap[o], c)
      requires forall b :: b in busy && b in heap ==> !marked[b].White?
      requires o in S && Closed(heap, S) && S <= heap.Keys
      modifies this`marked, this`gray
      ensures MarkInv(heap, marked, currentwhite, gray, grayagain, X, if heap[o].ClosedUp? then busy + {o} else busy)
      ensures Marked(old(marked), marked, S) && marked[o] == c
      ensures Whites(marked) < Whites(old(marked))
      decreases Whites(marked), 0
    {
      hide MarkInv, Edges;
      ghost var busy' := if heap[o].ClosedUp? then busy + {o} else busy;
      WhitesShrink(marked, o, c);
      MarkStart(heap, marked, currentwhite, gray, grayagain, X, busy, o, c);
      marked := marked[o := c];
      MarkAll(Edges(heap, o), X + {o}, busy', S);
      MarkFinish(heap, marked, currentwhite, gray, grayagain, X, busy', o);
    }

    /** `markvalue`/`markobject` over a run of references. */
    method MarkAll(rs: seq<Ref>, ghost X: set<Ref>, ghost busy: set<Ref>, ghost S: set<Ref>)
      requires marked.Keys == heap.Keys
      requires MarkInv(heap, marked, currentwhite, gray, grayagain, X, busy)
      requires forall r :: r in rs ==> r in heap && r in S
      requires forall b :: b in busy && b in heap ==> !marked[b].White?
      requires Closed(heap, S) && S <= heap.Keys
      modifies this`marked, this`gray
      ensures MarkInv(heap, marked, currentwhite, gray, grayagain, X, busy)
      ensures Marked(old(marked), marked, S)
      ensures forall r :: r in rs ==> !marked[r].White?
      ensures Whites(marked) <= Whites(old(marked))
      ensures Whites(marked) == Whites(old(marked)) ==> gray == old(gray)
      decreases Whites(marked), 2
    {
      hide MarkInv, Closed;
      for i := 0 to |rs|
        invariant MarkInv(heap, marked, currentwhite, gray, grayagain, X, busy)
        invariant Marked(old(marked), marked, S)
        invariant forall j :: 0 <= j < i ==> !marked[rs[j]].White?
        invariant Whites(marked) <= Whites(old(marked))
        invariant Whites(marked) == Whites(old(marked)) ==> gray == old(gray)
      {
        if marked[rs[i]].White? {
          ReallyMark(rs[i], X, busy, S);
        }
      }
    }

    /** `propagatemark`: take one object off `gray` and mark everything it refers to. */
    method PropagateMark(ghost X: set<Ref>, ghost S: set<Ref>)
      requires marked.Keys == heap.Keys
      requires MarkInv(heap, marked, currentwhite, gray, grayagain, X, {})
      requires gray != [] && gray[0] in S && Closed(heap, S) && S <= heap.Keys
      modifies this`marked, this`gray, this`grayagain
      ensures MarkInv(heap, marked, currentwhite, gray, grayagain, X, {})
      ensures Advance(old(marked), marked, S)
      ensures forall o :: o in old(grayagain) ==> o in grayagain
      ensures Whites(marked) <= Whites(old(marked))
      ensures Whites(marked) == Whites(old(marked)) ==> gray == old(gray)[1..]
    {
      hide MarkInv, Edges;
      var o := gray[0];
      PopGray(heap, marked, currentwhite, gray, grayagain, X);
      gray := gray[1..];
      if heap[o].Thread? {
        grayagain := [o] + grayagain;      // threads stay gray until the atomic step
      } else {
        marked := marked[o := Black];
      }
      label popped:
      assert Whites(marked) == Whites(old(marked));
      MarkAll(Edges(heap, o), X + {o}, {}, S);
      MarkFinish(heap, marked, currentwhite, gray, grayagain, X, {}, o);
    }

    /** `propagateall` */
    method PropagateAll(ghost X: set<Ref>, ghost S: set<Ref>)
      requires marked.Keys == heap.Keys
      requires MarkInv(heap, marked, currentwhite, gray, grayagain, X, {})
      requires Closed(heap, S) && S <= heap.Keys && Sound(marked, S)
      modifies this`marked, this`gray, this`grayagain
      ensures marked.Keys == heap.Keys
      ensures MarkInv(heap, marked, currentwhite, gray, grayagain, X, {})
      ensures Advance(old(marked), marked, S)
      ensures forall o :: o in old(grayagain) ==> o in grayagain
      ensures gray == []
      ensures Whites(marked) <= Whites(old(marked))
    {
      hide MarkInv, Closed;
      while gray != []
        invariant marked.Keys == heap.Keys
        invariant MarkInv(heap, marked, currentwhite, gray, grayagain, X, {})
        invariant Advance(old(marked), marked, S)
        invariant forall o :: o in old(grayagain) ==> o in grayagain
        invariant Whites(marked) <= Whites(old(marked))
        decreases Whites(marked), |gray|
      {
        GrayIsMarked(heap, marked, currentwhite, gray, grayagain, X);
        PropagateMark(X, S);
      }
    }

    /** `markmt`: mark the metatables of the basic types. */
    method MarkMt(ghost X: set<Ref>, ghost S: set<Ref>)
      requires marked.Keys == heap.Keys
      requires MarkInv(heap, marked, currentwhite, gray, grayagain, X, {})
      requires Closed(heap, S) && S <= heap.Keys
      requires RefsOf(mt) <= S
      modifies this`marked, this`gray
      ensures MarkInv(heap, marked, currentwhite, gray, grayagain, X, {})
      ensures Marked(old(marked), marked, S)
      ensures forall r :: r in RefsOf(mt) ==> r in marked && !marked[r].White?
    {
      hide MarkInv, Closed, Whites;
      assert forall i :: 0 <= i < |mt| && mt[i].Some? ==> mt[i].value in RefsOf(mt);
      for i := 0 to |mt|
        invariant MarkInv(heap, marked, currentwhite, gray, grayagain, X, {})
        invariant Marked(old(marked), marked, S)
        invariant marked.Keys == heap.Keys
        invariant forall j :: 0 <= j < i && mt[j].Some? ==> mt[j].value in heap && !marked[mt[j].value].White?
      {
        MarkAll(OptRefs(mt[i]), X, {}, S);
        assert mt[i].Some? ==> mt[i].value in OptRefs(mt[i]);
      }
    }

    /** `markroot`: start a cycle from a heap that is all current white. */
    method MarkRoot(ghost S: set<Ref>)
      requires marked.Keys == heap.Keys && HeapClosed(heap)
      requires forall o :: o in heap ==> marked[o] == White(currentwhite)
      requires Closed(heap, S) && S <= heap.Keys
      requires mainthread in S && registry in S && heap[mainthread].Thread?
      requires RefsOf(mt) <= S
      modifies this`marked, this`gray, this`grayagain, this`phase
      ensures MarkInv(heap, marked, currentwhite, gray, grayagain, {}, {})
      ensures grayagain == [] && phase == Propagate
      ensures !marked[mainthread].White? && !marked[registry].White?
      ensures Sound(marked, S)
    {
      hide MarkInv, Closed, HeapClosed;
      gray, grayagain := [], [];
      MarkBegin(heap, marked, currentwhite);
      MarkFirst(S);
      MarkMt({}, S);
      phase := Propagate;
    }

    /** The main thread, its globals and the registry. */
    method MarkFirst(ghost S: set<Ref>)
      requires marked.Keys == heap.Keys && (forall o :: o in heap ==> marked[o] == White(currentwhite))
      requires MarkInv(heap, marked, currentwhite, gray, grayagain, {}, {})
      requires Closed(heap, S) && S <= heap.Keys && mainthread in S && registry in S && heap[mainthread].Thread?
      modifies this`marked, this`gray
      ensures marked.Keys == heap.Keys && MarkInv(heap, marked, currentwhite, gray, grayagain, {}, {})
      ensures !marked[mainthread].White? && !marked[registry].White? && Sound(marked, S)
    {
      hide MarkInv, Closed;
      MarkAll([mainthread], {}, {}, S);
      MainThreadEdges(heap, S, mainthread);
      MarkAll(ValueRefs([heap[mainthread].gt]), {}, {}, S);
      MarkAll([registry], {}, {}, S);
    }

    /** `remarkupvals`: the slot of a gray open upvalue may have changed since it was marked. */
    method RemarkUpvals(ghost X: set<Ref>, ghost S: set<Ref>)
      requires marked.Keys == heap.Keys
      requires MarkInv(heap, marked, currentwhite, gray, grayagain, X + Elems(uvhead), {})
      requires forall u :: u in uvhead ==> u in heap && heap[u].OpenUp?
      requires Closed(heap, S) && S <= heap.Keys
      requires Sound(marked, S)
      modifies this`marked, this`gray
      ensures MarkInv(heap, marked, currentwhite, gray, grayagain, X, {})
      ensures Marked(old(marked), marked, S)
    {
      hide MarkInv, Closed;
      assert uvhead[0..] == uvhead;
      for i := 0 to |uvhead|
        invariant MarkInv(heap, marked, currentwhite, gray, grayagain, X + Elems(uvhead[i..]), {})
        invariant Marked(old(marked), marked, S)
      {
        assert uvhead[i..] == [uvhead[i]] + uvhead[i + 1..];
        ghost var Y := X + Elems(uvhead[i + 1..]);
        assert X + Elems(uvhead[i..]) == Y + {uvhead[i]};
        assert uvhead[i] in uvhead;
        RemarkUpval(uvhead[i], Y, S);
      }
      assert X + Elems(uvhead[|uvhead|..]) == X;
    }

    method RemarkUpval(uv: Ref, ghost X: set<Ref>, ghost S: set<Ref>)
      requires marked.Keys == heap.Keys
      requires MarkInv(heap, marked, currentwhite, gray, grayagain, X + {uv}, {})
      requires uv in heap && heap[uv].OpenUp?
      requires Closed(heap, S) && S <= heap.Keys
      requires !marked[uv].White? ==> uv in S
      modifies this`marked, this`gray
      ensures MarkInv(heap, marked, currentwhite, gray, grayagain, X, {})
      ensures Marked(old(marked), marked, S)
    {
      hide MarkInv;
      if marked[uv].Gray? {
        MarkAll(ValueRefs([UpvalValue(heap, heap[uv])]), X + {uv}, {}, S);
        MarkFinish(heap, marked, currentwhite, gray, grayagain, X, {}, uv);
      } else {
        OpenNotBlack(heap, marked, currentwhite, gray, grayagain, X + {uv}, uv);
        MarkDropWhite(heap, marked, currentwhite, gray, grayagain, X, uv);
      }
    }

    /** The marking half of `atomic`. */
    method AtomicMark(ghost S: set<Ref>)
      requires Inv(Snap()) && phase.Propagate? && gray == [] && Covers(Snap(), S)
      modifies this`marked, this`gray, this`grayagain
      ensures AllMarked(old(Snap()), Snap(), S) && gray == []
    {
      hide MarkInv, Closed, Sound, Advance, Inv;
      MarkingFacts(Snap());
      AtomicTrace(S);
    }

    method AtomicTrace(ghost S: set<Ref>)
      requires marked.Keys == heap.Keys && gray == []
      requires MarkInv(heap, marked, currentwhite, gray, grayagain, Elems(grayagain) + Elems(uvhead), {})
      requires forall u :: u in uvhead ==> u in heap && heap[u].OpenUp?
      requires Closed(heap, S) && S <= heap.Keys && {running} + RefsOf(mt) <= S && Sound(marked, S)
      modifies this`marked, this`gray, this`grayagain
      ensures MarkInv(heap, marked, currentwhite, gray, grayagain, {}, {}) && gray == []
      ensures Advance(old(marked), marked, S) && Sound(marked, S)
      ensures forall r :: r in {running} + RefsOf(mt) ==> r in marked && !marked[r].White?
    {
      hide MarkInv, Closed, Sound, Whites, Advance, Marked;
      ghost var m0 := marked;
      ghost var X := Elems(grayagain);
      RemarkUpvals(X, S);                // open upvalues of (maybe) dead threads
      AfterMarked(m0, m0, marked, S);
      ghost var m1 := marked;
      PropagateAll(X, S);
      AfterAdvance(m0, m1, marked, S);
      AtomicRoots(X, S, m0);             // there are no weak tables to remark
      MarkAgain(heap, marked, currentwhite, grayagain, X);
      gray := grayagain;
      grayagain := [];
      ghost var m2 := marked;
      PropagateAll({}, S);
      AfterAdvance(m0, m2, marked, S);
      AdvanceMarks(m2, marked, S, {running} + RefsOf(mt));
    }

    /** The running thread and the basic metatables are marked without a barrier: do it now. */
    method AtomicRoots(ghost X: set<Ref>, ghost S: set<Ref>, ghost m0: Marks)
      requires marked.Keys == heap.Keys && gray == []
      requires MarkInv(heap, marked, currentwhite, gray, grayagain, X, {})
      requires Closed(heap, S) && S <= heap.Keys && {running} + RefsOf(mt) <= S
      requires Sound(marked, S) && Advance(m0, marked, S)
      modifies this`marked, this`gray, this`grayagain
      ensures marked.Keys == heap.Keys && gray == []
      ensures MarkInv(heap, marked, currentwhite, gray, grayagain, X, {})
      ensures forall o :: o in old(grayagain) ==> o in grayagain
      ensures Sound(marked, S) && Advance(m0, marked, S)
      ensures forall r :: r in {running} + RefsOf(mt) ==> r in marked && !marked[r].White?
    {
      hide MarkInv, Closed, Sound, Whites, Advance, Marked;
      ghost var m1 := marked;
      MarkAll([running], X, {}, S);
      AfterMarked(m0, m1, marked, S);
      AfterMarked(m1, m1, marked, S);
      ghost var m2 := marked;
      MarkMt(X, S);
      AfterMarked(m0, m2, marked, S);
      AfterMarked(m2, m2, marked, S);
      AdvanceMarks(m2, marked, S, {running});
      ghost var m3 := marked;
      PropagateAll(X, S);
      AfterAdvance(m0, m3, marked, S);
      AdvanceMarks(m3, marked, S, {running} + RefsOf(mt));
    }

    /** `atomic`: finish marking without interruption and flip the current white.  Afterwards the
        objects that are not dead all lie in `S`, any closed set that holds the roots. */
    method Atomic(ghost S: set<Ref>)
      requires Inv(Snap()) && phase.Propagate? && gray == [] && Covers(Snap(), S)
      modifies this`marked, this`gray, this`grayagain, this`currentwhite, this`phase, this`sweepgc, this`sweepstrgc
      ensures Inv(Snap()) && phase.SweepString? && sweepgc == sweepstrgc == 0
      ensures forall o :: Alive(heap, marked, currentwhite, o) ==> o in S
    {
      hide Inv, Covers, AllMarked, Alive;
      ghost var s := Snap();
      AtomicMark(S);
      AtomicInv(s, Snap(), S);
      currentwhite := !currentwhite;
      sweepstrgc, sweepgc := 0, 0;
      phase := SweepString;
    }

    // ---------- Sweeping ----------

    /** `sweepwholelist` over the open upvalues of a thread. */
    method SweepUpvals(t: Ref)
      requires Inv(Snap()) && phase.Sweep? && t in heap && heap[t].Thread?
      modifies this`heap, this`marked, this`uvhead
      ensures Inv(Snap()) && KeepsAlive(old(Snap()), Snap())
      ensures t in heap && heap[t].Thread? && t in marked && marked[t] == old(marked)[t]
      ensures heap.Keys <= old(heap).Keys
      ensures forall u :: u in heap[t].openupval ==> Fresh(marked, currentwhite, u)
    {
      hide Inv, KeepsAlive;
      ghost var s0 := Snap();
      InvKeys(s0);
      ghost var colour := marked[t];
      KeepsRefl(s0);
      var i := 0;
      while i < |heap[t].openupval|
        invariant Inv(Snap()) && KeepsAlive(s0, Snap())
        invariant t in heap && heap[t].Thread? && t in marked && marked[t] == colour
        invariant heap.Keys <= old(heap).Keys
        invariant i <= |heap[t].openupval|
        invariant forall k :: 0 <= k < i ==> Fresh(marked, currentwhite, heap[t].openupval[k])
        decreases |heap[t].openupval| - i
      {
        ghost var s1 := Snap();
        var u := heap[t].openupval[i];
        CellFacts(s1, t, i);
        if IsDead(marked, currentwhite, u) {       // must erase it
          FreeCell(t, i);
        } else {
          WhitenInv(s1, u);
          marked := marked[u := White(currentwhite)];
          i := i + 1;
        }
        KeepsAliveTrans(s0, s1, Snap());
      }
    }

    /** `luaF_freeupval` of a dead open upvalue, taken out of its thread's list. */
    method FreeCell(t: Ref, i: nat)
      requires Inv(Snap()) && (phase.Sweep? || phase.SweepString?) && t in heap && heap[t].Thread? &&
          i < |heap[t].openupval|
      requires heap[t].openupval[i] in marked && IsDead(marked, currentwhite, heap[t].openupval[i])
      modifies this`heap, this`marked, this`uvhead
      ensures Inv(Snap()) && KeepsAlive(old(Snap()), Snap())
      ensures t in old(heap) && heap == (old(heap) - {old(heap)[t].openupval[i]})[t := DropCell(old(heap)[t], i)]
      ensures t in heap && heap[t] == DropCell(old(heap)[t], i)
      ensures marked == old(marked) - {old(heap)[t].openupval[i]} && t in marked
      ensures heap.Keys <= old(heap).Keys
    {
      hide Inv, KeepsAlive, Fresh, IsDead, Alive;
      ghost var s1 := Snap();
      var u := heap[t].openupval[i];
      CellFacts(s1, t, i);
      heap := (heap - {u})[t := DropCell(heap[t], i)];
      marked := marked - {u};
      uvhead := Without<Ref>(uvhead, u);              // `unlinkupval'
      CellFreedInv(s1, Snap(), t, i);
    }

    // ---------- Write barriers ----------

    /** `luaC_barrier`/`luaC_objbarrier` after `v` was stored into `o`: a black `o` must not refer to
        a white object while marking. */
    method Barrier(o: Ref, v: Value)
      requires Stored(Snap(), o, Refs(v)) && !heap[o].Table?
      requires marked.Keys == heap.Keys
      modifies this`marked, this`gray
      ensures Inv(Snap()) && KeepsAlive(old(Snap()), Snap())
      ensures marked.Keys == heap.Keys
      ensures !phase.Propagate? ==> forall x :: x in marked && x != o ==> marked[x] == old(marked)[x]
    {
      hide Stored, Inv, KeepsAlive;
      StoredFacts(Snap(), o, Refs(v));
      if v.Obj? && marked[v.ref].White? && marked[o].Black? {
        BarrierF(o, v.ref);
      } else {
        NoBarrier(Snap(), o, Refs(v));
        KeepsRefl(Snap());
      }
    }

    /** `luaC_barrierf` */
    method BarrierF(o: Ref, v: Ref)
      requires Stored(Snap(), o, {v}) && !heap[o].Table?
      requires marked.Keys == heap.Keys && v in heap && o in heap && marked[v].White? && marked[o].Black?
      modifies this`marked, this`gray
      ensures Inv(Snap()) && KeepsAlive(old(Snap()), Snap())
      ensures marked.Keys == heap.Keys
      ensures !phase.Propagate? ==> forall x :: x in marked && x != o ==> marked[x] == old(marked)[x]
    {
      hide Inv, KeepsAlive, MarkInv, Structure, Live, Pending;
      ghost var s := Snap();
      if phase.Propagate? {
        MarkedIsClosed(s, o, {v});
        ReallyMark(v, Pending(s) + {o}, {}, heap.Keys);
        BarrierMarked(s, Snap(), o, v);
      } else {
        BlackInSweep(s, o);
        WhitenInv(s, o);
        marked := marked[o := White(currentwhite)];
      }
    }

    /** `luaC_barriert`/`luaC_objbarriert` after `v` was stored into the table `t`. */
    method BarrierT(t: Ref, v: Value)
      requires Stored(Snap(), t, Refs(v)) && heap[t].Table?
      requires marked.Keys == heap.Keys
      modifies this`marked, this`grayagain
      ensures Inv(Snap()) && KeepsAlive(old(Snap()), Snap())
    {
      hide Stored, Inv, KeepsAlive;
      StoredFacts(Snap(), t, Refs(v));
      if v.Obj? && marked[v.ref].White? && marked[t].Black? {
        BarrierBack(Snap(), t, Refs(v));           // `luaC_barrierback'
        marked := marked[t := Gray];
        grayagain := [t] + grayagain;
      } else {
        NoBarrier(Snap(), t, Refs(v));
        KeepsRefl(Snap());
      }
    }

    // ---------- Open upvalues ----------

    /** One round of `luaF_close` for an upvalue that is not dead, with `luaC_linkupval`. */
    method CloseFirst(t: Ref)
      requires Inv(Snap()) && t in heap && heap[t].Thread? && heap[t].openupval != []
      requires heap[t].openupval[0] in marked && !IsDead(marked, currentwhite, heap[t].openupval[0])
      modifies this`heap, this`marked, this`gray, this`rootgc, this`sweepgc, this`uvhead
      ensures Inv(Snap()) && KeepsAlive(old(Snap()), Snap())
      ensures t in heap && heap[t] == DropCell(old(heap)[t], 0)
      ensures t != old(heap)[t].openupval[0] && old(heap)[t].openupval[0] !in heap[t].openupval
      ensures heap.Keys == old(heap).Keys && sweepgc == Shifted(old(sweepgc))
      ensures var u := old(heap)[t].openupval[0];
              u in heap && old(heap)[u].OpenUp? && heap[u] == ClosedUp(UpvalValue(old(heap), old(heap)[u]))
      ensures forall x :: x in heap && x != t && x != old(heap)[t].openupval[0] ==> heap[x] == old(heap)[x]
      ensures !phase.Propagate? ==>
                forall x :: x in old(marked) && x != old(heap)[t].openupval[0] ==>
                    x in marked && marked[x] == old(marked)[x]
    {
      hide Inv, KeepsAlive, CellClosed, Stored;
      ghost var s := Snap();
      CellFacts(s, t, 0);
      var u := heap[t].openupval[0];
      var v := UpvalValue(heap, heap[u]);
      NotDeadNotBlack(s, u);
      MoveToRoot(t);
      ghost var s1 := Snap();
      ClosedStored(s, s1, t, v);
      StoredFacts(s1, u, Refs(v));
      CellClosedFacts(s, s1, t);
      Barrier(u, v);
      KeepsAliveTrans(s, s1, Snap());
    }

    /** Take the first open upvalue of `t` out of the open lists, give it its own value, and chain it
        in `rootgc` with the colour `luaC_linkupval` chooses. */
    method MoveToRoot(t: Ref)
      requires t in heap && heap[t].Thread? && heap[t].openupval != []
      requires var u := heap[t].openupval[0];
               u in heap && heap[u].OpenUp? && u in uvhead && u != t && Alive(heap, marked, currentwhite, u)
      requires NoDup(uvhead)
      modifies this`heap, this`marked, this`rootgc, this`sweepgc, this`uvhead
      ensures CellClosed(old(Snap()), Snap(), t, 0,
          ClosedColour(phase, currentwhite, old(marked)[old(heap)[t].openupval[0]]))
    {
      hide NoDup;
      var u := heap[t].openupval[0];
      heap := heap[u := ClosedUp(UpvalValue(heap, heap[u]))][t := DropCell(heap[t], 0)];
      uvhead := Without<Ref>(uvhead, u);         // `unlinkupval'
      rootgc := [u] + rootgc;
      sweepgc := Shifted(sweepgc);
      marked := marked[u := ClosedColour(phase, currentwhite, marked[u])];
    }

    // ---------- Sweeping the object lists ----------

    /** `freeobj` of a dead object already taken off `rootgc`; a thread first closes its upvalues. */
    method FreeObj(o: Ref)
      requires Inv(Snap()) && phase.Sweep? && freeing == {o}
      requires o in heap && InRoot(heap[o]) && o in marked && IsDead(marked, currentwhite, o) && o !in fixed
      requires heap[o].Thread? ==> forall u :: u in heap[o].openupval ==> Fresh(marked, currentwhite, u)
      modifies this`heap, this`marked, this`gray, this`rootgc, this`sweepgc, this`uvhead, this`freeing
      ensures Inv(Snap()) && KeepsAlive(old(Snap()), Snap()) && freeing == {}
      ensures heap.Keys == old(heap).Keys - {o}
      ensures old(sweepgc) <= sweepgc
    {
      hide Inv, KeepsAlive;
      ghost var s := Snap();
      InvKeys(s);
      KeepsRefl(s);
      if heap[o].Thread? {
        CloseAll(o);
      }
      ghost var s1 := Snap();
      assert o in heap && o in marked;
      ReleaseInv(s1, o);
      heap := heap - {o};
      marked := marked - {o};
      freeing := {};
      KeepsAliveTrans(s, s1, Snap());
    }

    /** `luaF_close(L1, L1->stack)` for a thread that is being freed: its dead upvalues are gone. */
    method CloseAll(t: Ref)
      requires Inv(Snap()) && phase.Sweep? && DyingThread(heap, marked, currentwhite, t)
      modifies this`heap, this`marked, this`gray, this`rootgc, this`sweepgc, this`uvhead
      ensures Inv(Snap()) && KeepsAlive(old(Snap()), Snap())
      ensures heap.Keys == old(heap).Keys && DyingThread(heap, marked, currentwhite, t) && heap[t].openupval == []
      ensures old(sweepgc) <= sweepgc
    {
      ghost var s := Snap();
      InvKeys(s);
      KeepsRefl(s);
      assert t in heap && heap[t].Thread?;
      hide *;
      while heap[t].openupval != []
        invariant Inv(Snap()) && KeepsAlive(s, Snap())
        invariant heap.Keys == s.heap.Keys && t in heap && heap[t].Thread? && DyingThread(heap, marked, currentwhite, t)
        invariant s.sweepgc <= sweepgc
        decreases |heap[t].openupval|
      {
        ghost var s1 := Snap();
        CloseDying(t);
        KeepsAliveTrans(s, s1, Snap());
      }
    }

    method CloseDying(t: Ref)
      requires Inv(Snap()) && phase.Sweep? && DyingThread(heap, marked, currentwhite, t) && heap[t].openupval != []
      modifies this`heap, this`marked, this`gray, this`rootgc, this`sweepgc, this`uvhead
      ensures Inv(Snap()) && KeepsAlive(old(Snap()), Snap())
      ensures heap.Keys == old(heap).Keys && t in heap && heap[t].Thread? && DyingThread(heap, marked, currentwhite, t)
      ensures t in old(heap) && old(heap)[t].Thread? && |heap[t].openupval| < |old(heap)[t].openupval|
      ensures old(sweepgc) <= sweepgc
    {
      assert t in heap && heap[t].Thread?;
      hide Inv, KeepsAlive, DyingThread;
      ghost var s := Snap();
      DyingCell(s, t);
      CloseFirst(t);
      DyingNext(s, Snap(), t);
    }

    /** One round of `sweeplist` on `rootgc`. */
    method SweepObject()
      requires Inv(Snap()) && phase.Sweep? && freeing == {} && sweepgc < |rootgc|
      modifies this`heap, this`marked, this`gray, this`rootgc, this`sweepgc, this`uvhead, this`freeing
      ensures Inv(Snap()) && KeepsAlive(old(Snap()), Snap()) && freeing == {}
      ensures |heap.Keys| - sweepgc < old(|heap.Keys| - sweepgc)
    {
      hide Inv, KeepsAlive;
      ghost var s := Snap();
      var curr := rootgc[sweepgc];
      RootFacts(s);
      if heap[curr].Thread? {
        SweepUpvals(curr);             // a thread: its own list first
        Smaller(heap.Keys, s.heap.Keys);
      } else {
        KeepsRefl(s);
      }
      ghost var s1 := Snap();
      if !IsDead(marked, currentwhite, curr) || curr in fixed {
        KeepObject();
      } else {
        EraseObject();
      }
      KeepsAliveTrans(s, s1, Snap());
    }

    /** Not dead: make it white for the next cycle. */
    method KeepObject()
      requires Inv(Snap()) && phase.Sweep? && freeing == {} && sweepgc < |rootgc|
      requires rootgc[sweepgc] in heap && rootgc[sweepgc] in marked && InRoot(heap[rootgc[sweepgc]])
      requires !IsDead(marked, currentwhite, rootgc[sweepgc]) || rootgc[sweepgc] in fixed
      requires heap[rootgc[sweepgc]].Thread? ==>
                 forall u :: u in heap[rootgc[sweepgc]].openupval ==> Fresh(marked, currentwhite, u)
      modifies this`marked, this`sweepgc
      ensures Inv(Snap()) && KeepsAlive(old(Snap()), Snap())
      ensures sweepgc == old(sweepgc) + 1
    {
      hide Inv, KeepsAlive;
      ghost var s := Snap();
      var curr := rootgc[sweepgc];
      SurvivorAlive(s, curr);
      WhitenInv(s, curr);
      marked := marked[curr := White(currentwhite)];
      ghost var s1 := Snap();
      AdvanceSweepInv(s1);
      sweepgc := sweepgc + 1;
      KeepsAliveTrans(s, s1, Snap());
    }

    /** Dead: take it off the list and free it. */
    method EraseObject()
      requires Inv(Snap()) && phase.Sweep? && freeing == {} && sweepgc < |rootgc|
      requires rootgc[sweepgc] in heap && rootgc[sweepgc] in marked
      requires IsDead(marked, currentwhite, rootgc[sweepgc]) && rootgc[sweepgc] !in fixed
      requires heap[rootgc[sweepgc]].Thread? ==>
                 forall u :: u in heap[rootgc[sweepgc]].openupval ==> Fresh(marked, currentwhite, u)
      modifies this`heap, this`marked, this`gray, this`rootgc, this`sweepgc, this`uvhead, this`freeing
      ensures Inv(Snap()) && KeepsAlive(old(Snap()), Snap()) && freeing == {}
      ensures |heap.Keys| - sweepgc < old(|heap.Keys| - sweepgc)
    {
      hide Inv, KeepsAlive;
      ghost var s := Snap();
      var curr := rootgc[sweepgc];
      UnlinkInv(s);
      rootgc := rootgc[..sweepgc] + rootgc[sweepgc + 1..];
      freeing := {curr};
      ghost var s1 := Snap();
      FreeObj(curr);
      KeepsAliveTrans(s, s1, Snap());
    }

    /** One round of `sweeplist` on a chain of the string table. */
    method SweepOneString(k: nat) returns (kept: bool)
      requires Inv(Snap()) && phase.SweepString? && sweepstrgc < |strt| && k < |strt[sweepstrgc]|
      modifies this`heap, this`marked, this`strt
      ensures Inv(Snap()) && KeepsAlive(old(Snap()), Snap())
      ensures |strt| == old(|strt|)
      ensures var i := sweepstrgc;
              if kept then strt == old(strt) && marked == old(marked)[strt[i][k] := White(currentwhite)]
              else |strt[i]| == old(|strt[sweepstrgc]|) - 1 && strt[i][..k] == old(strt[sweepstrgc][..k])
                   && (forall j ::
                         0 <= j < k && old(strt[sweepstrgc][j]) in old(marked) &&
                         Fresh(old(marked), currentwhite, strt[i][j]) ==>
                           Fresh(marked, currentwhite, strt[i][j]))
    {
      hide Inv, KeepsAlive, NoDup;
      ghost var s := Snap();
      ChainFacts(s);
      var i, o := sweepstrgc, strt[sweepstrgc][k];
      assert o in strt[i];
      kept := !IsDead(marked, currentwhite, o) || o in fixed;
      if kept {
        WhitenInv(s, o);
        marked := marked[o := White(currentwhite)];
      } else {
        FreeStringInv(s, k);
        heap := heap - {o};
        marked := marked - {o};
        strt := strt[i := strt[i][..k] + strt[i][k + 1..]];
      }
    }

    /** One step of the sweep-string phase: `sweepwholelist` on one chain of the string table. */
    method SweepChain()
      requires Inv(Snap()) && phase.SweepString?
      modifies this`heap, this`marked, this`strt, this`sweepstrgc, this`phase
      ensures Inv(Snap()) && KeepsAlive(old(Snap()), Snap())
      ensures sweepstrgc == old(sweepstrgc) + 1 && |strt| == old(|strt|)
      ensures phase == if sweepstrgc == |strt| then Sweep else SweepString
    {
      hide Inv, KeepsAlive;
      ghost var s := Snap();
      ChainFacts(s);
      KeepsRefl(s);
      var i, k := sweepstrgc, 0;
      while k < |strt[i]|
        invariant i == sweepstrgc < |strt| == old(|strt|) && phase.SweepString? && k <= |strt[i]|
        invariant Inv(Snap()) && KeepsAlive(s, Snap())
        invariant forall j :: 0 <= j < k ==> Fresh(marked, currentwhite, strt[i][j])
        decreases |strt[i]| - k
      {
        ghost var s1 := Snap();
        var kept := SweepOneString(k);
        KeepsAliveTrans(s, s1, Snap());
        k := if kept then k + 1 else k;
      }
      ghost var s1 := Snap();
      NextChainInv(s1);
      sweepstrgc := sweepstrgc + 1;
      if sweepstrgc >= |strt| {
        phase := Sweep;
      }
      KeepsAliveTrans(s, s1, Snap());
    }

    // ---------- The collector's state machine ----------

    /** `singlestep`.  `S` is any closed set with the roots: it bounds what this cycle will keep. */
    method SingleStep(ghost S: set<Ref>)
      requires Inv(Snap()) && freeing == {} && Within(Snap(), S)
      modifies this`heap, this`marked, this`gray, this`grayagain, this`rootgc, this`sweepgc, this`strt,
               this`sweepstrgc, this`uvhead, this`currentwhite, this`phase, this`freeing
      ensures Inv(Snap()) && freeing == {}
      ensures Stepped(old(Snap()), Snap())
      ensures old(phase) != Finalize ==> Within(Snap(), S)
    {
      hide *;
      match phase {
        case Pause => StepStart(S);
        case Propagate => StepPropagate(S);
        case SweepString => StepSweepString(S);
        case Sweep => StepSweep(S);
        case Finalize => StepFinalize();          // no userdata to finalize: end collection
      }
    }

    method StepStart(ghost S: set<Ref>)
      requires Inv(Snap()) && freeing == {} && Within(Snap(), S) && phase.Pause?
      modifies this`marked, this`gray, this`grayagain, this`phase
      ensures Inv(Snap()) && Stepped(old(Snap()), Snap()) && Within(Snap(), S)
    {
      hide Inv, Keeps, Covers;
      StepPause(S);
    }

    method StepPause(ghost S: set<Ref>)
      requires Inv(Snap()) && freeing == {} && (phase.Pause? || phase.Finalize?)
      requires Closed(heap, S) && S <= heap.Keys && Snap().Roots() <= S
      modifies this`marked, this`gray, this`grayagain, this`phase
      ensures Inv(Snap()) && Keeps(old(Snap()), Snap()) && phase.Propagate? && Covers(Snap(), S)
    {
      hide MarkInv, Closed, Reach, SameObject, AliveClosed, RootListOk, StringsOk, UpvalsOk, HeapClosed;
      ghost var s := Snap();
      CleanFacts(s);
      MarkRoot(S);
      MarkRootInv(s, Snap());
      KeepsHeap(s, Snap());
    }

    method StepPropagate(ghost S: set<Ref>)
      requires Inv(Snap()) && freeing == {} && Within(Snap(), S) && phase.Propagate?
      modifies this`marked, this`gray, this`grayagain, this`currentwhite, this`phase, this`sweepgc, this`sweepstrgc
      ensures Inv(Snap()) && Stepped(old(Snap()), Snap()) && Within(Snap(), S)
    {
      hide Inv, MarkInv, Closed, Reach, SameObject, Whites, Keeps, Alive, Sound;
      ghost var s := Snap();
      if gray != [] {
        StepMark(S);
      } else {
        Atomic(S);
      }
      KeepsHeap(s, Snap());
    }

    method StepMark(ghost S: set<Ref>)
      requires Inv(Snap()) && Covers(Snap(), S) && phase.Propagate? && gray != []
      modifies this`marked, this`gray, this`grayagain
      ensures Inv(Snap()) && Covers(Snap(), S) && Progress(old(Snap()), Snap())
    {
      hide Inv, Covers, MarkInv, Closed, Advance, Progress, Whites, Elems;
      ghost var s := Snap();
      BeforeStep(s, S);
      ghost var X := Elems(grayagain) + Elems(uvhead);
      PropagateMark(X, S);
      PropagatedStep(s, Snap(), S);
    }

    method StepSweepString(ghost S: set<Ref>)
      requires Inv(Snap()) && freeing == {} && Within(Snap(), S) && phase.SweepString?
      modifies this`heap, this`marked, this`strt, this`sweepstrgc, this`phase
      ensures Inv(Snap()) && Stepped(old(Snap()), Snap()) && Within(Snap(), S)
    {
      hide Inv, KeepsAlive, Keeps, Alive;
      ghost var s := Snap();
      SweepChain();
      StepKeeps(s, Snap());
      WithinAlive(s, Snap(), S);
    }

    method StepSweep(ghost S: set<Ref>)
      requires Inv(Snap()) && freeing == {} && Within(Snap(), S) && phase.Sweep?
      modifies this`heap, this`marked, this`gray, this`rootgc, this`sweepgc, this`uvhead, this`phase, this`freeing
      ensures Inv(Snap()) && freeing == {} && Stepped(old(Snap()), Snap()) && Within(Snap(), S)
    {
      hide Inv, KeepsAlive, Keeps, Alive;
      ghost var s := Snap();
      SweepList(GCSWEEPMAX);
      ghost var s1 := Snap();
      if sweepgc == |rootgc| {                    // the end of the list
        SweepDone(s1);
        phase := Finalize;
        KeepsAliveTrans(s, s1, Snap());
      }
      StepKeeps(s, Snap());
      WithinAlive(s, Snap(), S);
    }

    /** `sweeplist` on `rootgc`, at most `count` objects. */
    method SweepList(count: nat)
      requires Inv(Snap()) && freeing == {} && phase.Sweep?
      modifies this`heap, this`marked, this`gray, this`rootgc, this`sweepgc, this`uvhead, this`freeing
      ensures Inv(Snap()) && freeing == {} && KeepsAlive(old(Snap()), Snap())
      ensures sweepgc <= |rootgc|
      ensures count > 0 && sweepgc < |rootgc| ==> |heap.Keys| - sweepgc < old(|heap.Keys| - sweepgc)
    {
      hide Inv, KeepsAlive;
      ghost var s := Snap();
      InvKeys(s);
      KeepsRefl(s);
      var left := count;
      while sweepgc < |rootgc| && left > 0
        invariant Inv(Snap()) && freeing == {} && KeepsAlive(s, Snap()) && left <= count
        invariant sweepgc <= |rootgc|
        invariant |heap.Keys| - sweepgc <= old(|heap.Keys| - sweepgc) - (count - left)
        decreases left
      {
        ghost var s1 := Snap();
        SweepObject();
        KeepsAliveTrans(s, s1, Snap());
        left := left - 1;
        InvKeys(Snap());
      }
    }

    method StepFinalize()
      requires Inv(Snap()) && freeing == {} && phase.Finalize?
      modifies this`phase
      ensures Inv(Snap()) && Stepped(old(Snap()), Snap())
    {
      hide AliveClosed, RootListOk, StringsOk, UpvalsOk, Keeps;
      ghost var s := Snap();
      phase := Pause;
      LiveSame(s, Snap());
      KeepsHeap(s, Snap());
    }

    /** `luaC_fullgc`: from any state of the collector, exactly the reachable and the fixed objects
        survive, all of them in the current white, and the program sees no difference. */
    method FullGC()
      requires Inv(Snap()) && freeing == {}
      modifies this`heap, this`marked, this`gray, this`grayagain, this`rootgc, this`sweepgc, this`strt,
               this`sweepstrgc, this`uvhead, this`currentwhite, this`phase, this`freeing
      ensures Inv(Snap()) && freeing == {} && phase.Pause? && Clean(Snap())
      ensures Keeps(old(Snap()), Snap())
      ensures heap.Keys == Reach(heap, Snap().Roots()) + fixed
      ensures ClosedFields(Snap(), Reach(heap, Snap().Roots()))
      ensures forall S: set<Ref> :: ClosedFields(Snap(), S) ==> heap.Keys <= S + fixed
    {
      hide Inv, Keeps, Covers, Reach, Clean, Structure, Live, ClosedFields;
      ghost var s0 := Snap();
      FinishSweep();
      ghost var s := Snap();
      InvLive(s);
      ReachCovers(s);
      ghost var S := Reach(heap, s.Roots());
      StepPause(S);
      ghost var s1 := Snap();
      RunCycle(S);
      KeepsTrans(s, s1, Snap());
      KeepsTrans(s0, s, Snap());
      FullExact(s, Snap());
      InvLive(Snap());
      ReachLeast(Snap());
    }

    /** Finish any pending sweep, first giving up a marking phase under way. */
    method FinishSweep()
      requires Inv(Snap()) && freeing == {}
      modifies this`heap, this`marked, this`gray, this`grayagain, this`rootgc, this`sweepgc, this`strt,
               this`sweepstrgc, this`uvhead, this`currentwhite, this`phase, this`freeing
      ensures Inv(Snap()) && freeing == {} && phase.Finalize? && Keeps(old(Snap()), Snap())
    {
      hide Inv, Keeps, Covers, Work, Progress;
      ghost var s := Snap();
      if phase.Pause? || phase.Propagate? {
        ResetInv(s);
        sweepstrgc, sweepgc := 0, 0;
        gray, grayagain := [], [];
        phase := SweepString;
      } else {
        KeepsHeap(s, s);
      }
      ghost var S := heap.Keys;
      assert Within(Snap(), S);
      WorkNat(Snap());
      while phase != Finalize
        invariant Inv(Snap()) && freeing == {} && Keeps(s, Snap()) && Work(Snap()) >= 0
        invariant !phase.Pause? && !phase.Propagate? && Within(Snap(), S)
        decreases Rank(phase), Work(Snap()), |gray|
      {
        ghost var s1 := Snap();
        SingleStep(S);
        KeepsTrans(s, s1, Snap());
        WorkDecreases(s1, Snap());
        WorkNat(Snap());
        SweepGoesOn(s1, Snap());
      }
    }

    /** Single steps from the start of marking to the end of the cycle. */
    method RunCycle(ghost S: set<Ref>)
      requires Inv(Snap()) && freeing == {} && phase.Propagate? && Covers(Snap(), S)
      modifies this`heap, this`marked, this`gray, this`grayagain, this`rootgc, this`sweepgc, this`strt,
               this`sweepstrgc, this`uvhead, this`currentwhite, this`phase, this`freeing
      ensures Inv(Snap()) && freeing == {} && phase.Pause? && Keeps(old(Snap()), Snap())
      ensures heap.Keys <= S + fixed
    {
      hide Inv, Keeps, Within, Work, Progress, Covers;
      ghost var s := Snap();
      KeepsHeap(s, s);
      WithinStart(s, S);
      WorkNat(s);
      while phase != Pause
        invariant Inv(Snap()) && freeing == {} && Keeps(s, Snap()) && Work(Snap()) >= 0
        invariant !phase.Pause? ==> Within(Snap(), S)
        invariant phase.Pause? ==> heap.Keys <= S + fixed
        decreases Rank(phase), Work(Snap()), |gray|
      {
        ghost var s1 := Snap();
        if phase.Finalize? {
          OnlyWithin(s1, S);
        }
        SingleStep(S);
        KeepsTrans(s, s1, Snap());
        WorkDecreases(s1, Snap());
        WorkNat(Snap());
        PauseAfterFinalize(s1, Snap());
      }
    }

    // ---------- The running program ----------

    /** Between two steps: the invariant holds and nothing is half freed. */
    ghost predicate Valid()
      reads this
    {
      Inv(Snap()) && freeing == {}
    }

    /** The registers of the running function: the stack of the running thread. */
    function Regs(): seq<Value>
      reads this
    {
      if running in heap && heap[running].Thread? then heap[running].stack else []
    }

    /** `setobjs2s`: a write to a register needs no barrier. */
    method SetReg(a: nat, v: Value)
      requires Valid() && a < |Regs()| && AliveValue(Snap(), v)
      modifies this`heap
      ensures Valid() && Regs() == old(Regs())[a := v]
      ensures running in old(heap) && running in heap && SameThread(old(heap)[running], heap[running])
      ensures heap.Keys == old(heap).Keys && forall o :: o in heap && o != running ==> heap[o] == old(heap)[o]
      ensures Assigned(old(Snap()), Snap(), a, v)
    {
      hide Inv, AliveValue;
      RootAlive(Snap(), running);
      RegStack(Snap(), heap[running].stack[a := v]);
      StackInv(Snap(), running, heap[running].gt, heap[running].stack[a := v]);
      heap := heap[running := heap[running].(stack := heap[running].stack[a := v])];
    }

    /** OP_MOVE */
    method Move(a: nat, b: nat)
      requires Valid() && a < |Regs()| && b < |Regs()|
      modifies this`heap
      ensures Valid() && Regs() == old(Regs())[a := old(Regs())[b]]
      ensures heap.Keys == old(heap).Keys && forall o :: o in heap && o != running ==> heap[o] == old(heap)[o]
      ensures Assigned(old(Snap()), Snap(), a, old(Regs())[b])
    {
      hide Inv, AliveValue;
      RootAlive(Snap(), running);
      SlotAlive(Snap(), Regs()[b]);
      SetReg(a, Regs()[b]);
    }

    /** A store into a heap object followed by the barrier for its kind. */
    method Store(o: Ref, obj: Object, v: Value)
      requires Valid() && StoreOk(Snap(), o, obj, Refs(v))
      modifies this`heap, this`marked, this`gray, this`grayagain
      ensures Valid() && heap == old(heap)[o := obj]
    {
      hide Inv, StoreOk, Stored, Refs;
      StoreStored(Snap(), o, obj, Refs(v));
      heap := heap[o := obj];
      if obj.Table? {
        BarrierT(o, v);
      } else {
        Barrier(o, v);
      }
    }

    /** OP_SETTABLE on an existing slot, or on a new one at the end: `luaV_settable`. */
    method SetTable(a: nat, i: nat, b: nat)
      requires Valid() && a < |Regs()| && b < |Regs()|
      requires Regs()[a].Obj? && Regs()[a].ref in heap && heap[Regs()[a].ref].Table? && i <= |heap[Regs()[a].ref].slots|
      modifies this`heap, this`marked, this`gray, this`grayagain
      ensures Valid()
      ensures var t := old(Regs())[a].ref;
              heap == old(heap)[t := old(heap)[t].(slots := PutSlot(old(heap)[t].slots, i, old(Regs())[b]))]
    {
      hide Inv, AliveValue, Holds, StoreOk;
      ghost var s := Snap();
      RegsHold(s, Regs()[a], Regs()[b]);
      var t, v := Regs()[a].ref, Regs()[b];
      TableStoreOk(s, t, PutSlot(heap[t].slots, i, v), v);
      Store(t, heap[t].(slots := PutSlot(heap[t].slots, i, v)), v);
    }

    /** OP_GETTABLE without metamethods */
    method GetTable(a: nat, b: nat, i: nat)
      requires Valid() && a < |Regs()| && b < |Regs()|
      requires Regs()[b].Obj? && Regs()[b].ref in heap && heap[Regs()[b].ref].Table? && i < |heap[Regs()[b].ref].slots|
      modifies this`heap
      ensures Valid() && Regs() == old(Regs())[a := old(heap)[old(Regs())[b].ref].slots[i]]
      ensures heap.Keys == old(heap).Keys && forall o :: o in heap && o != running ==> heap[o] == old(heap)[o]
      ensures Assigned(old(Snap()), Snap(), a, old(heap)[old(Regs())[b].ref].slots[i])
    {
      hide Inv, AliveValue, Holds;
      RegsHold(Snap(), Regs()[b], Regs()[b]);
      SlotOfTable(Snap(), Regs()[b].ref, Regs()[b], heap[Regs()[b].ref].slots[i]);
      SetReg(a, heap[Regs()[b].ref].slots[i]);
    }

    /** `lua_getmetatable` of the table or userdata in register `b`; no metatable is nil. */
    method GetMetatable(a: nat, b: nat)
      requires Valid() && a < |Regs()| && b < |Regs()|
      requires Regs()[b].Obj? && Regs()[b].ref in heap && (heap[Regs()[b].ref].Table? || heap[Regs()[b].ref].Udata?)
      modifies this`heap
      ensures Valid() && Regs() == old(Regs())[a := OptValue(old(heap)[old(Regs())[b].ref].metatable)]
      ensures heap.Keys == old(heap).Keys && forall o :: o in heap && o != running ==> heap[o] == old(heap)[o]
      ensures Assigned(old(Snap()), Snap(), a, OptValue(old(heap)[old(Regs())[b].ref].metatable))
    {
      hide Inv, Holds, Alive;
      RegsHold(Snap(), Regs()[b], Regs()[b]);
      HoldsAlive(Snap(), Regs()[b].ref, Regs()[b]);
      FieldsAlive(Snap(), Regs()[b].ref);
      SetReg(a, OptValue(heap[Regs()[b].ref].metatable));
    }

    /** `lua_getmetatable` of a value of a basic type */
    method GetBasicMt(a: nat, i: nat)
      requires Valid() && a < |Regs()| && i < |mt|
      modifies this`heap
      ensures Valid() && Regs() == old(Regs())[a := OptValue(mt[i])]
      ensures heap.Keys == old(heap).Keys && forall o :: o in heap && o != running ==> heap[o] == old(heap)[o]
      ensures Assigned(old(Snap()), Snap(), a, OptValue(mt[i]))
    {
      hide Inv, Alive;
      BasicMtAlive(Snap(), i);
      SetReg(a, OptValue(mt[i]));
    }

    /** `lua_getfenv` of the object in register `b` */
    method GetEnv(a: nat, b: nat)
      requires Valid() && a < |Regs()| && b < |Regs()|
      requires Regs()[b].Obj? && Regs()[b].ref in heap && HasEnv(heap[Regs()[b].ref])
      modifies this`heap
      ensures Valid()
      ensures var o := old(heap)[old(Regs())[b].ref];
              Regs() == old(Regs())[a := if o.Thread? then o.gt else Obj(o.env)]
      ensures heap.Keys == old(heap).Keys && forall o :: o in heap && o != running ==> heap[o] == old(heap)[o]
      ensures var o := old(heap)[old(Regs())[b].ref];
              Assigned(old(Snap()), Snap(), a, if o.Thread? then o.gt else Obj(o.env))
    {
      hide Inv, Holds, Alive;
      RegsHold(Snap(), Regs()[b], Regs()[b]);
      HoldsAlive(Snap(), Regs()[b].ref, Regs()[b]);
      FieldsAlive(Snap(), Regs()[b].ref);
      var o := heap[Regs()[b].ref];
      SetReg(a, if o.Thread? then o.gt else Obj(o.env));
    }

    /** `lua_setmetatable`: R(B) is the metatable, or anything else to clear it. */
    method SetMetatable(a: nat, b: nat)
      requires Valid() && a < |Regs()| && b < |Regs()|
      requires Regs()[a].Obj? && Regs()[a].ref in heap && (heap[Regs()[a].ref].Table? || heap[Regs()[a].ref].Udata?)
      modifies this`heap, this`marked, this`gray, this`grayagain
      ensures Valid()
      ensures var o, v := old(Regs())[a].ref, old(Regs())[b];
              heap == old(heap)[o := WithMetatable(old(heap)[o], if v.Obj? then Some(v.ref) else None)]
      ensures var o, v := old(Regs())[a].ref, old(Regs())[b];
              var m := if v.Obj? then Some(v.ref) else None;
              heap[o] == if old(heap)[o].Table? then Table(m, old(heap)[o].slots) else Udata(m, old(heap)[o].env)
    {
      hide Inv, AliveValue, Holds, StoreOk;
      var o, v := Regs()[a].ref, Regs()[b];
      RegsHold(Snap(), Regs()[a], v);
      MetatableStoreOk(Snap(), o, v);
      Store(o, WithMetatable(heap[o], if v.Obj? then Some(v.ref) else None), v);
    }

    /** `lua_setfenv` */
    method SetEnv(a: nat, b: nat)
      requires Valid() && a < |Regs()| && b < |Regs()| && Regs()[a].Obj? && Regs()[b].Obj?
      requires Regs()[a].ref in heap && HasEnv(heap[Regs()[a].ref])
      modifies this`heap, this`marked, this`gray, this`grayagain
      ensures Valid()
      ensures var o := old(Regs())[a].ref; heap == old(heap)[o := WithEnv(old(heap)[o], old(Regs())[b].ref)]
      ensures var o, env := old(Regs())[a].ref, old(Regs())[b].ref;
              heap[o] == if old(heap)[o].Thread? then old(heap)[o].(gt := Obj(env)) else old(heap)[o].(env := env)
    {
      hide Inv, AliveValue, Holds, StoreOk;
      var o, v := Regs()[a].ref, Regs()[b];
      RegsHold(Snap(), Regs()[a], v);
      if heap[o].Thread? {
        HoldsAlive(Snap(), o, v);
        SetThreadEnv(o, v);
      } else {
        EnvStoreOk(Snap(), o, v);
        Store(o, WithEnv(heap[o], v.ref), v);
      }
    }

    /** The table of globals of a thread, with the barrier for it. */
    method SetThreadEnv(t: Ref, v: Value)
      requires Valid() && Holds(Snap(), t, v) && v.Obj? && t in heap && heap[t].Thread?
      modifies this`heap, this`marked, this`gray, this`grayagain
      ensures Valid() && heap == old(heap)[t := WithEnv(old(heap)[t], v.ref)]
    {
      ghost var s := Snap();
      hide Inv, Stored, Alive, AliveValue, Holds;
      ThreadEnvInv(s, t, v);
      heap := heap[t := heap[t].(gt := v)];
      assert Snap() == StackObj(s, t, v, s.heap[t].stack);
      Barrier(t, v);
    }

    /** OP_GETUPVAL of the Lua closure in register `f` */
    method GetUpval(a: nat, f: nat, j: nat)
      requires Valid() && a < |Regs()| && f < |Regs()|
      requires Regs()[f].Obj? && Regs()[f].ref in heap && heap[Regs()[f].ref].LClosure? &&
          j < |heap[Regs()[f].ref].upvals|
      modifies this`heap
      ensures Valid()
      ensures var u := old(heap)[old(Regs())[f].ref].upvals[j];
              u in old(heap) && IsUpval(old(heap)[u]) && Regs() == old(Regs())[a := UpvalValue(old(heap), old(heap)[u])]
      ensures heap.Keys == old(heap).Keys && forall o :: o in heap && o != running ==> heap[o] == old(heap)[o]
      ensures CellFetched(old(Snap()), Snap(), a, old(heap)[old(Regs())[f].ref].upvals[j])
    {
      hide Inv, AliveValue, Holds;
      RegsHold(Snap(), Regs()[f], Regs()[f]);
      HoldsAlive(Snap(), Regs()[f].ref, Regs()[f]);
      UpvalOfClosure(Snap(), Regs()[f].ref, j);
      if heap[heap[Regs()[f].ref].upvals[j]].OpenUp? {
        CellSlot(Snap(), heap[Regs()[f].ref].upvals[j]);
      }
      SetReg(a, UpvalValue(heap, heap[heap[Regs()[f].ref].upvals[j]]));
    }

    /** OP_SETUPVAL: the value goes to the cell, or through an open cell into a stack slot. */
    method SetUpval(f: nat, j: nat, b: nat)
      requires Valid() && b < |Regs()| && f < |Regs()|
      requires Regs()[f].Obj? && Regs()[f].ref in heap && heap[Regs()[f].ref].LClosure? &&
          j < |heap[Regs()[f].ref].upvals|
      modifies this`heap, this`marked, this`gray, this`grayagain
      ensures Valid() && heap.Keys == old(heap).Keys
      ensures var u := old(heap)[old(Regs())[f].ref].upvals[j];
              && u in heap && IsUpval(heap[u]) && UpvalValue(heap, heap[u]) == old(Regs())[b]
              && (forall o :: o in heap && o != (if old(heap)[u].OpenUp? then old(heap)[u].thread else u) ==>
                  heap[o] == old(heap)[o])
      ensures CellStored(old(Snap()), Snap(), old(heap)[old(Regs())[f].ref].upvals[j], old(Regs())[b])
    {
      hide Inv, AliveValue, Holds, StoreOk;
      ghost var s := Snap();
      RegsHold(s, Regs()[f], Regs()[b]);
      HoldsAlive(s, Regs()[f].ref, Regs()[b]);
      UpvalOfClosure(s, Regs()[f].ref, j);
      var u, v := heap[Regs()[f].ref].upvals[j], Regs()[b];
      if heap[u].OpenUp? {
        CellSlot(s, u);
        var t := heap[u].thread;
        SlotWriteOk(s, u, v);
        StackInv(s, t, heap[t].gt, heap[t].stack[heap[u].level := v]);
        heap := heap[t := heap[t].(stack := heap[t].stack[heap[u].level := v])];
      } else {
        HoldsIntro(s, u, v);
        UpvalueStoreOk(s, u, v);
        Store(u, ClosedUp(v), v);
      }
    }

    /** `lua_replace` of an upvalue of the C closure in register `f` */
    method SetCUpvalue(f: nat, j: nat, b: nat)
      requires Valid() && b < |Regs()| && f < |Regs()|
      requires Regs()[f].Obj? && Regs()[f].ref in heap && heap[Regs()[f].ref].CClosure? &&
          j < |heap[Regs()[f].ref].values|
      modifies this`heap, this`marked, this`gray, this`grayagain
      ensures Valid()
      ensures var o := old(Regs())[f].ref;
              heap == old(heap)[o := old(heap)[o].(values := old(heap)[o].values[j := old(Regs())[b]])]
    {
      hide Inv, AliveValue, Holds, StoreOk;
      var o, v := Regs()[f].ref, Regs()[b];
      RegsHold(Snap(), Regs()[f], v);
      CUpvalueStoreOk(Snap(), o, j, v);
      Store(o, heap[o].(values := heap[o].values[j := v]), v);
    }

    /** `addk`: a new constant of the prototype in register `a` */
    method AddConstant(a: nat, b: nat)
      requires Valid() && a < |Regs()| && b < |Regs()|
      requires Regs()[a].Obj? && Regs()[a].ref in heap && heap[Regs()[a].ref].Proto?
      modifies this`heap, this`marked, this`gray, this`grayagain
      ensures Valid()
      ensures var o := old(Regs())[a].ref; heap == old(heap)[o := old(heap)[o].(k := old(heap)[o].k + [old(Regs())[b]])]
    {
      hide Inv, AliveValue, Holds, StoreOk;
      var o, v := Regs()[a].ref, Regs()[b];
      RegsHold(Snap(), Regs()[a], v);
      ConstantStoreOk(Snap(), o, v);
      Store(o, heap[o].(k := heap[o].k + [v]), v);
    }

    /** `addprototype`: the prototype (or name) in register `b` belongs to the one in register `a`. */
    method AddProto(a: nat, b: nat)
      requires Valid() && a < |Regs()| && b < |Regs()| && Regs()[b].Obj?
      requires Regs()[a].Obj? && Regs()[a].ref in heap && heap[Regs()[a].ref].Proto?
      modifies this`heap, this`marked, this`gray, this`grayagain
      ensures Valid()
      ensures var o := old(Regs())[a].ref;
              heap == old(heap)[o := old(heap)[o].(protos := old(heap)[o].protos + [old(Regs())[b].ref])]
    {
      hide Inv, AliveValue, Holds, StoreOk;
      var o, v := Regs()[a].ref, Regs()[b];
      RegsHold(Snap(), Regs()[a], v);
      ProtoStoreOk(Snap(), o, v);
      Store(o, heap[o].(protos := heap[o].protos + [v.ref]), v);
    }

    // ---------- Allocation ----------

    /** `luaM_malloc`: some address that is not in use, perhaps that of a freed object. */
    method Malloc() returns (r: Ref)
      ensures r !in heap
    {
      r := 0;
      ghost var used := {};
      while r in heap
        invariant forall i :: i in used ==> i < r
        decreases heap.Keys - used
      {
        assert r in heap.Keys - used;
        used := used + {r};
        r := r + 1;
      }
    }

    /** `luaC_link`: a new object in the current white, in front of `rootgc`. */
    method Link(o: Ref, obj: Object)
      requires Valid() && NewOk(Snap(), o, obj) && InRoot(obj)
      modifies this`heap, this`marked, this`rootgc, this`sweepgc
      ensures Valid() && heap == old(heap)[o := obj] && AliveValue(Snap(), Obj(o))
      ensures marked == old(marked)[o := White(currentwhite)]
    {
      hide Inv, NewOk, AliveValue;
      ghost var s := Snap();
      NewIsFresh(s, o, obj);
      NewInv(s, o, obj, 0);
      NewAliveValue(s, o, obj, 0);
      heap := heap[o := obj];
      marked := marked[o := White(currentwhite)];
      assert rootgc[..0] + [o] + rootgc[0..] == [o] + rootgc;
      rootgc := [o] + rootgc;
      sweepgc := Shifted(sweepgc);
    }

    /** `luaS_newudata`: userdata are chained behind the main thread. */
    method LinkUdata(o: Ref, obj: Object)
      requires Valid() && NewOk(Snap(), o, obj) && InRoot(obj)
      modifies this`heap, this`marked, this`rootgc, this`sweepgc
      ensures Valid() && heap == old(heap)[o := obj] && AliveValue(Snap(), Obj(o))
    {
      hide Inv, NewOk, AliveValue;
      ghost var s := Snap();
      NewIsFresh(s, o, obj);
      MainInRoot(s);
      var k := Position<Ref>(rootgc, mainthread) + 1;
      NewInv(s, o, obj, k);
      NewAliveValue(s, o, obj, k);
      heap := heap[o := obj];
      marked := marked[o := White(currentwhite)];
      rootgc := rootgc[..k] + [o] + rootgc[k..];
      sweepgc := if sweepgc > k then sweepgc + 1 else sweepgc;
    }

    /** The heap gained the object `o` and register `a` holds it; nothing else changed. */
    twostate predicate Created(a: nat, o: Ref, obj: Object)
      reads this
    {
      && Made(old(Snap()), Snap(), a, o, obj)
      && running in old(heap) && running in heap && SameThread(old(heap)[running], heap[running])
    }

    /** OP_NEWTABLE */
    method NewTable(a: nat) returns (o: Ref)
      requires Valid() && a < |Regs()|
      modifies this`heap, this`marked, this`rootgc, this`sweepgc
      ensures Valid() && Created(a, o, Table(None, []))
    {
      hide Inv, NewOk, AliveValue;
      RootAlive(Snap(), running);
      o := Malloc();
      NewTableOk(Snap(), o);
      Link(o, Table(None, []));
      SetReg(a, Obj(o));
    }

    /** `luaF_newproto` */
    method NewProto(a: nat) returns (o: Ref)
      requires Valid() && a < |Regs()|
      modifies this`heap, this`marked, this`rootgc, this`sweepgc
      ensures Valid() && Created(a, o, Proto([], []))
    {
      hide Inv, NewOk, AliveValue;
      RootAlive(Snap(), running);
      o := Malloc();
      NewProtoOk(Snap(), o);
      Link(o, Proto([], []));
      SetReg(a, Obj(o));
    }

    /** `lua_newuserdata`; register `b` holds the environment. */
    method NewUserdata(a: nat, b: nat) returns (o: Ref)
      requires Valid() && a < |Regs()| && b < |Regs()| && Regs()[b].Obj?
      modifies this`heap, this`marked, this`rootgc, this`sweepgc
      ensures Valid() && Created(a, o, Udata(None, old(Regs())[b].ref))
    {
      hide Inv, NewOk, AliveValue;
      RootAlive(Snap(), running);
      SlotAlive(Snap(), Regs()[b]);
      o := Malloc();
      NewUdataOk(Snap(), o, Regs()[b]);
      LinkUdata(o, Udata(None, Regs()[b].ref));
      SetReg(a, Obj(o));
    }

    /** `luaE_newthread` */
    method NewThread(a: nat) returns (o: Ref)
      requires Valid() && a < |Regs()|
      modifies this`heap, this`marked, this`rootgc, this`sweepgc
      ensures Valid() && Created(a, o, Thread(old(heap)[running].gt, [Prim(0)], []))
    {
      hide Inv, NewOk, AliveValue;
      RootAlive(Snap(), running);
      o := Malloc();
      NewThreadOk(Snap(), o);
      Link(o, Thread(heap[running].gt, [Prim(0)], []));
      SetReg(a, Obj(o));
    }

    /** `lua_pushcclosure` with upvalues from registers `lo` to `hi`; `b` holds the environment. */
    method NewCClosure(a: nat, b: nat, lo: nat, hi: nat) returns (o: Ref)
      requires Valid() && a < |Regs()| && b < |Regs()| && Regs()[b].Obj?
      modifies this`heap, this`marked, this`rootgc, this`sweepgc
      ensures Valid() && Created(a, o, CClosure(old(Regs()[b].ref), old(Range(Regs(), lo, hi))))
    {
      hide Inv, NewOk, AliveValue, AllAlive;
      RootAlive(Snap(), running);
      SlotAlive(Snap(), Regs()[b]);
      var vs := Range(Regs(), lo, hi);
      RegsAlive(Snap(), vs);
      o := Malloc();
      NewCClosureOk(Snap(), o, Regs()[b], vs);
      Link(o, CClosure(Regs()[b].ref, vs));
      SetReg(a, Obj(o));
    }

    /** `luaS_newlstr`: reuse an equal string, bringing it back to life if it is dead, or make one. */
    method MakeString(a: nat, hash: nat, text: string) returns (o: Ref)
      requires Valid() && a < |Regs()|
      modifies this`heap, this`marked, this`strt
      ensures Valid()
      ensures o in heap && heap[o] == Str(hash, text) && Regs() == old(Regs())[a := Obj(o)]
      ensures forall x :: x in old(heap) && x != running ==> x in heap && heap[x] == old(heap)[x]
      ensures (exists x :: x in old(heap) && old(heap)[x] == Str(hash, text)) ==> o in old(heap)
    {
      hide Inv, NewOk, AliveValue;
      o := Intern(hash, text);
      RootAlive(Snap(), running);
      SetReg(a, Obj(o));
    }

    method Intern(hash: nat, text: string) returns (o: Ref)
      requires Valid()
      modifies this`heap, this`marked, this`strt
      ensures Valid() && AliveValue(Snap(), Obj(o))
      ensures o in heap && heap[o] == Str(hash, text)
      ensures if exists x :: x in old(heap) && old(heap)[x] == Str(hash, text) then heap == old(heap)
              else o !in old(heap) && heap == old(heap)[o := Str(hash, text)]
    {
      hide Inv, NewOk, AliveValue;
      ghost var s := Snap();
      StringTable(s, hash, text);
      var c := Chain(hash, |strt|);
      var i := 0;
      while i < |strt[c]|
        invariant i <= |strt[c]|
        invariant forall j :: 0 <= j < i ==> strt[c][j] in heap && heap[strt[c][j]] != Str(hash, text)
      {
        o := strt[c][i];
        assert o in strt[c];
        if heap[o] == Str(hash, text) {
          if IsDead(marked, currentwhite, o) {     // not swept yet: keep it
            ReviveString(s, o);
            marked := marked[o := White(currentwhite)];
          }
          StringAlive(Snap(), o);
          return;
        }
        i := i + 1;
      }
      o := Malloc();
      NewStringInv(s, o, Str(hash, text));
      NoSuchString(s, hash, text);
      heap := heap[o := Str(hash, text)];
      marked := marked[o := White(currentwhite)];
      strt := strt[c := [o] + strt[c]];
      StringAlive(Snap(), o);
    }

    // ---------- Closures and their upvalues ----------

    /** `luaF_findupval`: the one cell of a stack slot, found or created in its place in the list. */
    method FindUpval(level: nat) returns (u: Ref)
      requires Valid() && level < |Regs()|
      modifies this`heap, this`marked, this`uvhead
      ensures Valid() && KeepsCells(old(Snap()), Snap())
      ensures running in heap && heap[running].Thread? && u in heap[running].openupval
      ensures u in heap && heap[u] == OpenUp(running, level) && Alive(heap, marked, currentwhite, u)
      ensures (exists x :: x in old(heap) && old(heap)[x] == OpenUp(running, level)) ==> heap == old(heap)
    {
      hide Inv, KeepsCells, CellFits, Alive;
      ghost var s := Snap();
      RootAlive(s, running);
      CellsSorted(s);
      var j := 0;
      while j < |heap[running].openupval| && heap[heap[running].openupval[j]].level >= level
        invariant j <= |heap[running].openupval|
        invariant forall k :: 0 <= k < j ==> heap[heap[running].openupval[k]].level > level
      {
        u := heap[running].openupval[j];
        if heap[u].level == level {                // the slot has its upvalue
          RunningCell(s, u);
          if IsDead(marked, currentwhite, u) {     // resurrect it
            ReviveCell(s, u);
            marked := marked[u := White(currentwhite)];
          }
          FoundCell(s, Snap(), u);
          return;
        }
        j := j + 1;
      }
      u := Malloc();
      CellFitsHere(heap, running, level, j);
      NewCellInv(s, u, running, level, j);
      NoCell(s, level, j);
      heap := heap[u := OpenUp(running, level)][running := AddCell(heap[running], j, u)];
      marked := marked[u := White(currentwhite)];
      uvhead := [u] + uvhead;
      AddedCell(s, u, level, j);
    }

    /** One upvalue of OP_CLOSURE: a cell of the enclosing closure, or the cell of a register. */
    method CaptureOne(f: Ref, c: Capture) returns (u: Ref)
      requires Valid() && Alive(heap, marked, currentwhite, f) && heap[f].LClosure?
      requires CapturesOk([c], |heap[f].upvals|, |Regs()|)
      modifies this`heap, this`marked, this`uvhead
      ensures Valid() && KeepsCells(old(Snap()), Snap())
      ensures f in old(heap) && Captured(Snap(), old(heap)[f].upvals, c, u)
      ensures f in heap && heap[f] == old(heap)[f] && Alive(heap, marked, currentwhite, f) && Regs() == old(Regs())
      ensures running in heap && heap[running].Thread?
    {
      assert f in heap && c in [c];
      ghost var s := Snap();
      RootAlive(s, running);
      hide Inv, KeepsCells, Captured, Alive;
      match c {
        case FromUp(j) =>
          u := heap[f].upvals[j];
          CapturedUp(s, f, j);
        case FromReg(level) =>
          u := FindUpval(level);
          CapturedReg(s, Snap(), s.heap[f].upvals, level, u);
      }
      KeepsCellsOf(s, Snap(), f);
    }

    /** All the cells a new closure captures. */
    method Capture(f: Ref, cs: seq<Capture>) returns (us: seq<Ref>)
      requires Valid() && Alive(heap, marked, currentwhite, f) && heap[f].LClosure?
      requires CapturesOk(cs, |heap[f].upvals|, |Regs()|)
      modifies this`heap, this`marked, this`uvhead
      ensures Valid() && KeepsCells(old(Snap()), Snap()) && |us| == |cs|
      ensures running in heap && heap[running].Thread?
      ensures f in old(heap) && AllCaptured(Snap(), old(heap)[f].upvals, cs, us)
    {
      assert f in heap;
      ghost var s := Snap();
      KeepsCellsRefl(s);
      RootAlive(s, running);
      assert CapturesOk(cs, |heap[f].upvals|, |Regs()|) && AllCaptured(s, s.heap[f].upvals, cs, []);
      us := [];
      hide *;
      for i := 0 to |cs|
        invariant Valid() && KeepsCells(s, Snap()) && |us| == i
        invariant f in heap && heap[f] == s.heap[f] && Alive(heap, marked, currentwhite, f) && Regs() == old(Regs())
        invariant running in heap && heap[running].Thread?
        invariant AllCaptured(Snap(), s.heap[f].upvals, cs, us)
      {
        ghost var s1 := Snap();
        CaptureIn(cs, |heap[f].upvals|, |Regs()|, i);
        var u := CaptureOne(f, cs[i]);
        CapturedNext(s, s1, Snap(), s.heap[f].upvals, cs, us, u);
        us := us + [u];
      }
    }

    /** OP_CLOSURE: instantiate the `k`-th inner prototype of the closure in register `f`. */
    method MakeClosure(a: nat, f: nat, k: nat, cs: seq<Capture>) returns (o: Ref)
      requires Valid() && a < |Regs()| && f < |Regs()|
      requires Regs()[f].Obj? && Regs()[f].ref in heap && heap[Regs()[f].ref].LClosure?
      requires var c := heap[Regs()[f].ref];
               c.proto in heap && heap[c.proto].Proto? && k < |heap[c.proto].protos| &&
                   CapturesOk(cs, |c.upvals|, |Regs()|)
      modifies this`heap, this`marked, this`uvhead, this`rootgc, this`sweepgc
      ensures Valid() && o !in old(heap) && o in heap && heap[o].LClosure? && |heap[o].upvals| == |cs|
      ensures var c := old(heap)[old(Regs())[f].ref];
              && heap[o].env == c.env && heap[o].proto == old(heap)[c.proto].protos[k]
              && AllCaptured(Snap(), c.upvals, cs, heap[o].upvals)
      ensures Regs() == old(Regs())[a := Obj(o)]
      ensures forall x :: x in old(heap) && x != running ==> x in heap && heap[x] == old(heap)[x]
    {
      hide Inv, KeepsCells, AllCaptured, Alive, NewOk, AliveValue, Holds;
      ghost var s := Snap();
      var fr := Regs()[f].ref;
      RegsHold(s, Regs()[f], Regs()[f]);
      HoldsAlive(s, fr, Regs()[f]);
      InnerProto(s, fr, k);
      var env, p := heap[fr].env, heap[heap[fr].proto].protos[k];
      var us := Capture(fr, cs);
      ghost var s1 := Snap();
      KeepsCellsObj(s, s1);
      InnerProtoKept(s, s1, env, p);
      o := LinkClosure(a, env, p, us, s.heap[fr].upvals, cs);
    }

    /** `luaF_newLclosure` around captured cells, put into register `a`. */
    method LinkClosure(a: nat, env: Ref, p: Ref, us: seq<Ref>, ghost upvals: seq<Ref>, ghost cs: seq<Capture>)
        returns (o: Ref)
      requires Valid() && a < |Regs()| && |us| == |cs| && running in heap && heap[running].Thread?
      requires Alive(heap, marked, currentwhite, env) && Alive(heap, marked, currentwhite, p)
      requires AllCaptured(Snap(), upvals, cs, us)
      modifies this`heap, this`marked, this`rootgc, this`sweepgc
      ensures Valid() && o !in old(heap) && o in heap && heap[o] == LClosure(env, p, us)
      ensures Regs() == old(Regs())[a := Obj(o)]
      ensures AllCaptured(Snap(), upvals, cs, us)
      ensures forall x :: x in old(heap) && x != running ==> x in heap && heap[x] == old(heap)[x]
    {
      hide Inv, AllCaptured, Alive, NewOk, AliveValue;
      ghost var s1 := Snap();
      o := Malloc();
      NewLClosureCaptured(s1, o, env, p, upvals, cs, us);
      Link(o, LClosure(env, p, us));
      RootAlive(Snap(), running);
      SetReg(a, Obj(o));
      RootAlive(Snap(), running);
      assert Regs()[a] == Obj(o);
      CapturedAfter(s1, Snap(), o, upvals, cs);
    }

    /** The end of `f_parser`: a closure for the prototype in register `b`, with the globals of the running
        thread and `nups` new upvalues. */
    method LoadMain(a: nat, b: nat, nups: nat) returns (o: Ref)
      requires Valid() && a < |Regs()| && b < |Regs()| && Regs()[b].Obj? && Regs()[b].ref in heap &&
          heap[Regs()[b].ref].Proto?
      requires running in heap && heap[running].Thread? && heap[running].gt.Obj?
      modifies this`heap, this`marked, this`rootgc, this`sweepgc
      ensures Valid() && o !in old(heap) && o in heap && heap[o].LClosure? && |heap[o].upvals| == nups
      ensures heap[o].env == old(heap)[running].gt.ref && heap[o].proto == old(Regs())[b].ref &&
          NewCells(heap, old(heap).Keys, heap[o].upvals)
      ensures Regs() == old(Regs())[a := Obj(o)]
      ensures forall x :: x in old(heap) && x != running ==> x in heap && heap[x] == old(heap)[x]
    {
      hide Inv, NewOk, AliveValue, Holds, Alive;
      ghost var s := Snap();
      var env, p := heap[running].gt.ref, Regs()[b].ref;
      RegsHold(s, Regs()[b], Regs()[b]);
      HoldsAlive(s, p, Regs()[b]);
      GlobalsAlive(s);
      o := Malloc();
      NewLClosureOk(s, o, env, p, []);
      Link(o, LClosure(env, p, []));
      hide NewCells;
      AddUpvals(o, nups);
      NewCellsBefore(heap, s.heap.Keys, o, heap[o].upvals);
      WhiteAlive(Snap(), o);
      RootAlive(Snap(), running);
      ghost var h := heap;
      SetReg(a, Obj(o));
      NewCellsKept(h, heap, s.heap.Keys, running, heap[o].upvals);
    }

    method AddUpvals(o: Ref, nups: nat)
      requires Valid() && o in heap && heap[o].LClosure? && heap[o].upvals == [] && o in marked &&
          marked[o] == White(currentwhite)
      modifies this`heap, this`marked, this`rootgc, this`sweepgc
      ensures Valid() && old(heap).Keys <= heap.Keys && o in heap && heap[o].LClosure? && |heap[o].upvals| == nups
      ensures heap[o] == old(heap)[o].(upvals := heap[o].upvals) && NewCells(heap, old(heap).Keys, heap[o].upvals)
      ensures forall x :: x in old(heap) && x != o ==> heap[x] == old(heap)[x]
      ensures o in marked && marked[o] == White(currentwhite)
    {
      hide Inv;
      ghost var h := heap;
      for i := 0 to nups
        invariant Valid() && h.Keys <= heap.Keys && o in heap && heap[o].LClosure? && |heap[o].upvals| == i
        invariant heap[o] == h[o].(upvals := heap[o].upvals) && NewCells(heap, h.Keys, heap[o].upvals)
        invariant forall x :: x in h && x != o ==> heap[x] == h[x]
        invariant o in marked && marked[o] == White(currentwhite)
      {
        var u := Malloc();
        AddUpval(o, u);
      }
    }

    /** `luaF_newupval` for the closure `o` that is being made; no collection has come between, so it is white. */
    method AddUpval(o: Ref, u: Ref)
      requires Valid() && o in heap && heap[o].LClosure? && o in marked && marked[o] == White(currentwhite) &&
          u !in heap
      modifies this`heap, this`marked, this`rootgc, this`sweepgc
      ensures Valid() && heap == old(heap)[u := ClosedUp(Prim(0))][o :=
          old(heap)[o].(upvals := old(heap)[o].upvals + [u])]
      ensures marked == old(marked)[u := White(currentwhite)]
    {
      hide Inv, NewOk, AliveValue, Holds, Alive, StoreOk, Stored;
      NewUpvalOk(Snap(), u);
      Link(u, ClosedUp(Prim(0)));
      WhiteAlive(Snap(), o);
      HoldsIntro(Snap(), o, Obj(u));
      AddUpvalOk(Snap(), o, u);
      StoreStored(Snap(), o, heap[o].(upvals := heap[o].upvals + [u]), Refs(Obj(u)));
      heap := heap[o := heap[o].(upvals := heap[o].upvals + [u])];
      NoBarrier(Snap(), o, Refs(Obj(u)));
    }

    /** `luaF_close`: upvalues at or above `level` stop pointing into the stack of the running thread.
        Every live upvalue keeps the value it stands for. */
    method CloseFrom(level: nat) returns (n: nat)
      requires Valid()
      modifies this`heap, this`marked, this`gray, this`rootgc, this`sweepgc, this`uvhead
      ensures Valid() && KeepsAlive(old(Snap()), Snap()) && Regs() == old(Regs()) && running == old(running)
      ensures running in old(heap) && running in heap && old(heap)[running].Thread? && heap[running].Thread?
      ensures heap[running].gt == old(heap)[running].gt
      ensures n <= |old(heap)[running].openupval| && heap[running].openupval == old(heap)[running].openupval[n..]
      ensures forall i :: 0 <= i < |old(heap)[running].openupval| ==>
                var u := old(heap)[running].openupval[i];
                && u in old(heap) && old(heap)[u].OpenUp?
                && (i < n <==> old(heap)[u].level >= level)
                && (i < n && u in heap ==> heap[u] == ClosedUp(UpvalValue(old(heap), old(heap)[u])))
                && (i >= n ==> u in heap && heap[u] == old(heap)[u])
      ensures ClosedAbove(old(Snap()), Snap(), level, n)
    {
      hide Inv, KeepsAlive, Alive;
      ghost var s := Snap();
      InvKeys(s);
      KeepsRefl(s);
      RootAlive(s, running);
      CellsSorted(s);
      NoneClosed(s, level);
      ghost var cells := heap[running].openupval;
      n := 0;
      while heap[running].openupval != [] && heap[heap[running].openupval[0]].level >= level
        invariant Valid() && KeepsAlive(s, Snap()) && Regs() == old(Regs()) && s.running == running
        invariant n <= |cells| && running in heap && heap[running].Thread? && heap[running].openupval == cells[n..]
        invariant heap[running].gt == s.heap[running].gt
        invariant ClosedTo(s, heap, level, n)
        decreases |heap[running].openupval|
      {
        CloseOne(s, level, n);
        n := n + 1;
      }
      CellsBelow(s, heap, level, n);
    }

    method CloseOne(ghost s: State, level: nat, n: nat)
      requires Valid() && KeepsAlive(s, Snap()) && s.running == running
      requires running in s.heap && s.heap[running].Thread? && n < |s.heap[running].openupval|
      requires running in heap && heap[running].Thread? && heap[running].openupval == s.heap[running].openupval[n..]
      requires Regs() == s.heap[running].stack && NoDup(s.heap[running].openupval)
      requires ClosedTo(s, heap, level, n)
      requires s.heap[running].openupval[n] in s.heap && s.heap[s.heap[running].openupval[n]].OpenUp?
      requires s.heap[s.heap[running].openupval[n]].level >= level
      modifies this`heap, this`marked, this`gray, this`rootgc, this`sweepgc, this`uvhead
      ensures Valid() && KeepsAlive(s, Snap()) && Regs() == old(Regs())
      ensures running in heap && heap[running].Thread? && heap[running].openupval == s.heap[running].openupval[n + 1..]
      ensures heap[running].gt == old(heap[running].gt)
      ensures ClosedTo(s, heap, level, n + 1)
    {
      hide Inv, KeepsAlive, Alive, ClosedTo, NoDup, UpvalValue, IsDead;
      ghost var s1 := Snap();
      var u := heap[running].openupval[0];
      CellFacts(s1, running, 0);
      if IsDead(marked, currentwhite, u) {
        OnlySweepHasDead(s1, u);
        FreeCell(running, 0);
        CloseFreed(s, s1, Snap(), level, n);
      } else {
        CloseFirst(running);
        CloseMoved(s, s1, Snap(), level, n);
      }
      KeepsAliveTrans(s, s1, Snap());
    }

    /** Pop or push registers; no open upvalue may point above the new top. */
    method SetTop(n: nat)
      requires Valid()
      requires forall u :: u in heap && heap[u].OpenUp? && heap[u].thread == running ==> heap[u].level < n
      modifies this`heap
      ensures Valid() && Regs() == TopOf(old(Regs()), n)
      ensures running in old(heap) && running in heap && SameThread(old(heap)[running], heap[running])
      ensures heap.Keys == old(heap).Keys && forall o :: o in heap && o != running ==> heap[o] == old(heap)[o]
    {
      hide Inv;
      RootAlive(Snap(), running);
      TopStackOk(Snap(), n);
      StackInv(Snap(), running, heap[running].gt, TopOf(Regs(), n));
      heap := heap[running := heap[running].(stack := TopOf(heap[running].stack, n))];
    }

    /** `lua_resume`/`lua_yield`: control passes to a thread the program holds. */
    method SwitchTo(t: Ref)
      requires Valid() && t in heap && heap[t].Thread? && Reachable(heap, Snap().Roots(), t)
      modifies this`running
      ensures Valid() && running == t
    {
      hide Inv, Reachable;
      InvLive(Snap());
      ReachableAlive(Snap());
      RunningInv(Snap(), t);
      running := t;
    }

    /** The program gets hold of an object that it can reach: a constant, the globals, an environment, a
        metatable, an upvalue of a C function, the registry ... */
    method FetchObject(a: nat, path: seq<Ref>)
      requires Valid() && a < |Regs()| && IsPath(heap, Snap().Roots(), path)
      modifies this`heap
      ensures Valid() && Regs() == old(Regs())[a := Obj(path[|path| - 1])]
      ensures heap.Keys == old(heap).Keys && forall o :: o in heap && o != running ==> heap[o] == old(heap)[o]
      ensures Assigned(old(Snap()), Snap(), a, Obj(path[|path| - 1]))
    {
      PathAlive(Snap(), path);
      assert AliveValue(Snap(), Obj(path[|path| - 1]));
      hide Inv, AliveValue;
      SetReg(a, Obj(path[|path| - 1]));
    }

    /** `lua_xmove`, of one value: it is put into a slot of any thread, or pushed, without a barrier. */
    method SetStack(t: Ref, i: nat, b: nat)
      requires Valid() && t in heap && heap[t].Thread? && i <= |heap[t].stack| && b < |Regs()|
      modifies this`heap
      ensures Valid() && heap == old(heap)[t := old(heap)[t].(stack := PutAt(old(heap)[t].stack, i, old(Regs())[b]))]
    {
      hide Inv, AliveValue, StackOk;
      RootAlive(Snap(), running);
      SlotAlive(Snap(), Regs()[b]);
      SlotStackOk(Snap(), t, i, Regs()[b]);
      StackInv(Snap(), t, heap[t].gt, PutAt(heap[t].stack, i, Regs()[b]));
      heap := heap[t := heap[t].(stack := PutAt(heap[t].stack, i, Regs()[b]))];
    }

    /** `lua_setmetatable` on a basic type: the roots change without a barrier; no object, no metatable. */
    method SetBasicMt(i: nat, a: nat)
      requires Valid() && i < |mt| && a < |Regs()|
      modifies this`mt
      ensures Valid() && mt == old(mt)[i := if Regs()[a].Obj? then Some(Regs()[a].ref) else None]
    {
      hide Inv;
      RootAlive(Snap(), running);
      SlotAlive(Snap(), Regs()[a]);
      BasicMtInv(Snap(), i, Regs()[a]);
      mt := mt[i := if Regs()[a].Obj? then Some(Regs()[a].ref) else None];
    }

    // ---------- Whole runs ----------

    /** `lua_newstate` */
    constructor ()
      ensures Valid() && Snap() == InitState()
    {
      heap := map[0 := Thread(Obj(1), [Prim(0)], []), 1 := Table(None, []), 2 := Table(None, [])];
      marked := map[0 := White(false), 1 := White(false), 2 := White(false)];
      fixed, currentwhite, phase := {0}, false, Pause;
      gray, grayagain, rootgc, sweepgc := [], [], [2, 1, 0], 0;
      strt, sweepstrgc, uvhead := seq(MINSTRTABSIZE, i => []), 0, [];
      mainthread, running, registry, mt := 0, 0, 2, seq(NUM_TAGS, i => None);
      freeing := {};
      new;
      hide Inv;
      InitInv();
      assert Snap() == InitState();
    }

    /** `luaS_fix`: the collector never frees this string. */
    method Fix(o: Ref)
      requires Valid() && o in heap && heap[o].Str?
      modifies this`fixed
      ensures Valid() && fixed == old(fixed) + {o}
    {
      hide Inv;
      FixInv(Snap(), o);
      fixed := fixed + {o};
    }

    /** What event `e` demands of the state; the code checks or arranges it before it acts. */
    predicate Enabled(e: Event)
      reads this
    {
      Able(heap, {mainthread, running, registry} + RefsOf(mt), mt, running, e)
    }

    /** A step of the collector, of either kind. */
    method Collecting(e: Event)
      requires Valid() && (e.Collect? || e.CollectAll?)
      modifies this
      ensures Valid() && old(Enabled(e)) && Happened(e, old(Snap()), Snap())
    {
      hide Inv, Keeps, Within, Stepped, Clean, Reach;
      if e.Collect? {
        AllWithin(Snap());
        SingleStep(heap.Keys);
        SteppedKeeps(old(Snap()), Snap());
      } else {
        FullGC();
      }
    }

    method Creating(e: Event)
      requires Valid() && Enabled(e)
      requires e.CreateTable? || e.CreateUserdata? || e.CreateThread? || e.CreateCClosure? || e.CreateProto?
      modifies this
      ensures Valid() && old(Enabled(e)) && Creates(e, old(Snap()), Snap())
    {
      hide Inv, Made, SameThread;
      var o;
      match e {
        case CreateTable(a) => o := NewTable(a);
        case CreateUserdata(a, b) => o := NewUserdata(a, b);
        case CreateThread(a) => o := NewThread(a);
        case CreateCClosure(a, b, lo, hi) => o := NewCClosure(a, b, lo, hi);
        case CreateProto(a) => o := NewProto(a);
      }
    }

    method Instantiating(e: Event)
      requires Valid() && Enabled(e) && (e.CreateClosure? || e.CreateString? || e.CreateMain?)
      modifies this
      ensures Valid() && old(Enabled(e)) && Instantiates(e, old(Snap()), Snap())
    {
      ghost var s := Snap();
      hide Inv, AllCaptured, NewCells;
      match e {
        case CreateClosure(a, f, k, cs) =>
          var o := MakeClosure(a, f, k, cs);
          assert Given(s, Snap(), a, o);
        case CreateString(a, hash, text) =>
          var o := MakeString(a, hash, text);
          assert Given(s, Snap(), a, o);
        case CreateMain(a, b, nups) =>
          var o := LoadMain(a, b, nups);
          assert Given(s, Snap(), a, o);
      }
    }

    /** Stores into tables, and into the fields beside the values. */
    method Storing(e: Event)
      requires Valid() && Enabled(e) && (e.PutTable? || e.PutMetatable? || e.PutEnv?)
      modifies this
      ensures Valid() && old(Enabled(e)) && Puts(e, old(Snap()), Snap())
    {
      hide Inv;
      match e {
        case PutTable(a, i, b) => SetTable(a, i, b);
        case PutMetatable(a, b) => SetMetatable(a, b);
        case PutEnv(a, b) => SetEnv(a, b);
      }
    }

    /** Stores into functions and prototypes. */
    method Filling(e: Event)
      requires Valid() && Enabled(e) && (e.PutUpval? || e.PutCUpvalue? || e.PutConstant? || e.PutProto?)
      modifies this
      ensures Valid() && old(Enabled(e)) && Puts(e, old(Snap()), Snap())
    {
      hide Inv, CellStored;
      match e {
        case PutUpval(f, i, b) => SetUpval(f, i, b);
        case PutCUpvalue(f, i, b) => SetCUpvalue(f, i, b);
        case PutConstant(a, b) => AddConstant(a, b);
        case PutProto(a, b) => AddProto(a, b);
      }
    }

    method Fetching(e: Event)
      requires Valid() && Enabled(e)
      requires e.Load? || e.Copy? || e.FetchTable? || e.FetchUpval? || e.FetchMetatable? || e.FetchBasicMt? ||
               e.FetchEnv? || e.Fetch?
      modifies this
      ensures Valid() && old(Enabled(e)) && Fetches(e, old(Snap()), Snap())
    {
      hide Inv, Reachable, AliveValue, Assigned, CellFetched;
      match e {
        case Load(a, n) =>
          PrimAlive(Snap(), n);
          SetReg(a, Prim(n));
        case Copy(a, b) => Move(a, b);
        case FetchTable(a, b, i) => GetTable(a, b, i);
        case FetchUpval(a, f, i) => GetUpval(a, f, i);
        case FetchMetatable(a, b) => GetMetatable(a, b);
        case FetchBasicMt(a, i) => GetBasicMt(a, i);
        case FetchEnv(a, b) => GetEnv(a, b);
        case Fetch(a, path) => FetchObject(a, path);
      }
    }

    method Moving(e: Event)
      requires Valid() && Enabled(e) && (e.PutBasicMt? || e.MoveTo? || e.PutFixed?)
      modifies this
      ensures Valid() && old(Enabled(e)) && Moves(e, old(Snap()), Snap())
    {
      hide Inv, AliveValue;
      match e {
        case PutBasicMt(i, a) => SetBasicMt(i, a);
        case MoveTo(path, i, b) => SetStack(path[|path| - 1], i, b);
        case PutFixed(a) => Fix(Regs()[a].ref);
      }
    }

    method Switching(e: Event)
      requires Valid() && Enabled(e) && (e.Resume? || e.Yield? || e.Switch?)
      modifies this
      ensures Valid() && old(Enabled(e)) && Moves(e, old(Snap()), Snap())
    {
      hide Inv, Reachable;
      match e {
        case Resume(a) => ResumeReg(a);
        case Yield => YieldMain();
        case Switch(path) =>
          PathAlive(Snap(), path);
          SwitchTo(path[|path| - 1]);
      }
    }

    method Closing(e: Event)
      requires Valid() && Enabled(e) && (e.CloseUpvals? || e.Return?)
      modifies this
      ensures Valid() && old(Enabled(e)) && Moves(e, old(Snap()), Snap())
    {
      ghost var s := Snap();
      hide Inv, KeepsAlive, ClosedAbove, TopOf, UpvalValue;
      if e.Return? {
        var n := CloseAndPop(e.level);
        assert ClosedAbove(s, Snap(), e.level, n);
      } else {
        var n := CloseFrom(e.level);
        assert ClosedAbove(s, Snap(), e.level, n);
      }
    }

    /** A function returns: its upvalues are closed, then its registers are popped. */
    method CloseAndPop(level: nat) returns (n: nat)
      requires Valid()
      modifies this`heap, this`marked, this`gray, this`rootgc, this`sweepgc, this`uvhead
      ensures Valid() && Regs() == TopOf(old(Regs()), level)
      ensures running in old(heap) && running in heap && old(heap)[running].Thread? && heap[running].Thread?
      ensures heap[running].gt == old(heap)[running].gt
      ensures SameRoots(old(Snap()), Snap()) && ClosedAbove(old(Snap()), Snap(), level, n)
    {
      hide Inv, KeepsAlive;
      n := CloseFrom(level);
      NoCellsAbove(old(Snap()), Snap(), level, n);
      SetTop(level);
    }

    method ResumeReg(a: nat)
      requires Valid() && IsObj(heap, Regs(), a) && heap[Regs()[a].ref].Thread?
      modifies this`running
      ensures Valid() && running == old(Regs())[a].ref
    {
      hide Inv, Reachable;
      RootAlive(Snap(), running);
      InvLive(Snap());
      SlotReachable(Snap(), Regs()[a]);
      SwitchTo(Regs()[a].ref);
    }

    method YieldMain()
      requires Valid()
      modifies this`running
      ensures Valid() && running == mainthread
    {
      hide Inv, Reachable;
      MainThread(Snap());
      ReachableRoot(heap, Snap().Roots(), mainthread);
      SwitchTo(mainthread);
    }

    /** Any event whose demands are met, or nothing. */
    method Step(e: Event)
      requires Valid()
      modifies this
      ensures Valid()
      ensures Does(e, old(Snap()), Snap())
    {
      hide Inv, Keeps, Creates, Instantiates, Puts, Fetches, Moves, Able;
      if Enabled(e) {
        match e {
          case Collect => Collecting(e);
          case CollectAll => Collecting(e);
          case CreateTable(_) => Creating(e);
          case CreateUserdata(_, _) => Creating(e);
          case CreateThread(_) => Creating(e);
          case CreateCClosure(_, _, _, _) => Creating(e);
          case CreateClosure(_, _, _, _) => Instantiating(e);
          case CreateProto(_) => Creating(e);
          case CreateString(_, _, _) => Instantiating(e);
          case CreateMain(_, _, _) => Instantiating(e);
          case PutTable(_, _, _) => Storing(e);
          case PutMetatable(_, _) => Storing(e);
          case PutEnv(_, _) => Storing(e);
          case PutUpval(_, _, _) => Filling(e);
          case PutCUpvalue(_, _, _) => Filling(e);
          case PutConstant(_, _) => Filling(e);
          case PutProto(_, _) => Filling(e);
          case PutBasicMt(_, _) => Moving(e);
          case CloseUpvals(_) => Closing(e);
          case Return(_) => Closing(e);
          case Resume(_) => Switching(e);
          case Yield => Switching(e);
          case MoveTo(_, _, _) => Moving(e);
          case PutFixed(_) => Moving(e);
          case Switch(_) => Switching(e);
          case _ => Fetching(e);
        }
      }
    }

    /** Any run: each event does what it should, and whatever the program can still reach has not been freed, and is
        not dead.  `ss` are the states between the events. */
    method Run(events: seq<Event>) returns (ghost ss: seq<State>)
      requires Valid()
      modifies this
      ensures Valid()
      ensures forall o :: Reachable(heap, Snap().Roots(), o) ==> o in heap && Alive(heap, marked, currentwhite, o)
      ensures ClosedFields(Snap(), AliveSet(heap, marked, currentwhite))
      ensures |ss| == |events| + 1 && ss[0] == old(Snap()) && ss[|events|] == Snap()
      ensures forall j {:trigger events[j]} :: 0 <= j < |events| ==> Does(events[j], ss[j], ss[j + 1])
    {
      hide Inv, Does, Reachable, ClosedFields;
      ss := [Snap()];
      for i := 0 to |events|
        invariant Valid() && |ss| == i + 1 && ss[0] == old(Snap()) && ss[i] == Snap()
        invariant forall j {:trigger events[j]} :: 0 <= j < i ==> Does(events[j], ss[j], ss[j + 1])
      {
        Step(events[i]);
        ss := ss + [Snap()];
      }
      InvLive(Snap());
      ReachableAlive(Snap());
      LiveFields(Snap());
    }
  }

  /** A run from the first state in which a closure captures a register of the running function. */
  method CaptureRun() returns (c: Collector, o: Ref, u: Ref)
    ensures fresh(c) && c.Valid() && Obj(o) in c.Regs()
    ensures o in c.heap && c.heap[o].LClosure? && c.heap[o].upvals == [u]
    ensures u in c.heap && c.heap[u] == OpenUp(c.running, 1)
  {
    hide Inv, Reachable, AllCaptured, Alive;
    c := MainRun();
    o := c.MakeClosure(2, 0, 0, [FromReg(1)]);
    u := c.heap[o].upvals[0];
    CapturedOne(c.Snap(), [], [FromReg(1)], c.heap[o].upvals);
    assert c.Regs()[2] == Obj(o);
  }

  /** A main closure whose prototype has one inner prototype. */
  method MainRun() returns (c: Collector)
    ensures fresh(c) && c.Valid() && |c.Regs()| == 3 && c.Regs()[0].Obj? && c.Regs()[0].ref in c.heap
    ensures var f := c.heap[c.Regs()[0].ref];
            f.LClosure? && f.upvals == [] && f.proto in c.heap && c.heap[f.proto].Proto? &&
                |c.heap[f.proto].protos| == 1
  {
    hide Inv, Reachable, NewCells;
    c := ProtoRun();
    var _ := c.LoadMain(0, 0, 0);
  }

  method ProtoRun() returns (c: Collector)
    ensures fresh(c) && c.Valid() && |c.Regs()| == 3 && c.Regs()[0].Obj? && c.Regs()[0].ref in c.heap
    ensures c.heap[c.Regs()[0].ref].Proto? && |c.heap[c.Regs()[0].ref].protos| == 1
    ensures c.running in c.heap && c.heap[c.running].Thread? && c.heap[c.running].gt.Obj?
  {
    hide Inv;
    c := ThreeRegisters();
    var _ := c.NewProto(0);
    var _ := c.NewProto(1);
    c.AddProto(0, 1);
  }

  method ThreeRegisters() returns (c: Collector)
    ensures fresh(c) && c.Valid() && |c.Regs()| == 3
    ensures c.running in c.heap && c.heap[c.running].Thread? && c.heap[c.running].gt.Obj?
  {
    hide Inv, TopOf;
    c := new Collector();
    var _ := c.CloseAndPop(3);
  }

  const GCSWEEPMAX := 40

  lemma NewCellsBefore(h: Heap, before: set<Ref>, o: Ref, us: seq<Ref>)
    requires NewCells(h, before + {o}, us)
    ensures NewCells(h, before, us)
  {
  }

  lemma NewCellsKept(h: Heap, h': Heap, before: set<Ref>, r: Ref, us: seq<Ref>)
    requires NewCells(h, before, us) && r in before && h'.Keys == h.Keys
    requires forall x :: x in h && x != r ==> h'[x] == h[x]
    ensures NewCells(h', before, us)
  {
  }
}
