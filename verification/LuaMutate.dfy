/**
 What the running program does to the object graph between collector steps: stores into objects,
 writes to stacks, new objects, and the two ways it gets hold of an object it could not reach
 before: interning a string and capturing a stack slot.
 */
module LuaMutate {
  import opened Seqs
  import opened LuaHeap
  import opened LuaInvariants
  import opened LuaSweep
  import opened LuaStore

  ghost predicate AliveValue(s: State, v: Value) {
    v.Obj? ==> Alive(s.heap, s.marked, s.currentwhite, v.ref)
  }

  // ---------- Stores into heap objects ----------

  /** Objects whose references change only through a store with a barrier. */
  predicate Storable(o: Object) {
    o.Table? || o.Udata? || o.CClosure? || o.LClosure? || o.Proto? || o.ClosedUp?
  }

  predicate SameKind(a: Object, b: Object) {
    && (a.Table? <==> b.Table?) && (a.Udata? <==> b.Udata?) && (a.CClosure? <==> b.CClosure?)
    && (a.LClosure? <==> b.LClosure?) && (a.Proto? <==> b.Proto?) && (a.ClosedUp? <==> b.ClosedUp?)
  }

  function StoreObj(s: State, o: Ref, obj: Object): State {
    s.(heap := s.heap[o := obj])
  }

  /** A store replaces a live object by one of its kind that refers to nothing new but `stored`. */
  ghost predicate StoreOk(s: State, o: Ref, obj: Object, stored: set<Ref>) {
    && Alive(s.heap, s.marked, s.currentwhite, o)
    && Storable(s.heap[o]) && Storable(obj) && SameKind(s.heap[o], obj)
    && (obj.LClosure? ==> forall u :: u in obj.upvals ==> u in s.heap[o].upvals || (u in s.heap && IsUpval(s.heap[u])))
    && (forall c :: c in Edges(s.heap[o := obj], o) ==> c in Edges(s.heap, o) || c in stored)
    && (forall c :: c in stored ==> Alive(s.heap, s.marked, s.currentwhite, c))
  }

  lemma StoreEdges(h: Heap, o: Ref, obj: Object, x: Ref)
    requires o in h && Storable(h[o]) && Storable(obj) && x != o
    ensures Edges(h[o := obj], x) == Edges(h, x)
  {
  }

  lemma StoreLive(s: State, o: Ref, obj: Object, stored: set<Ref>)
    requires Live(s) && s.marked.Keys == s.heap.Keys && StoreOk(s, o, obj, stored)
    ensures Live(StoreObj(s, o, obj))
  {
    var s' := StoreObj(s, o, obj);
    forall x | x in s.heap && x != o ensures Edges(s'.heap, x) == Edges(s.heap, x) {
      StoreEdges(s.heap, o, obj, x);
    }
    LiveFacts(s);
    hide Edges, AliveClosed;
    StoreAlive(s.heap, s'.heap, s.marked, s.currentwhite, o, stored);
    assert s'.Roots() == s.Roots();
    assert forall r :: r in s.Roots() ==> Alive(s.heap, s.marked, s.currentwhite, r);
  }

  /** `h'` differs from `h` in one object whose references are old ones or in `stored`. */
  lemma StoreAlive(h: Heap, h': Heap, m: Marks, cw: bool, o: Ref, stored: set<Ref>)
    requires AliveClosed(h, m, cw) && h'.Keys == h.Keys == m.Keys && Alive(h, m, cw, o)
    requires forall x :: x in h && x != o ==> h'[x] == h[x] && Edges(h', x) == Edges(h, x)
    requires forall c :: c in Edges(h', o) ==> c in Edges(h, o) || c in stored
    requires forall c :: c in stored ==> Alive(h, m, cw, c)
    requires IsUpval(h[o]) ==> IsUpval(h'[o])
    requires h'[o].LClosure? ==> h[o].LClosure? && forall u :: u in h'[o].upvals ==>
        u in h[o].upvals || (u in h && IsUpval(h[u]))
    ensures AliveClosed(h', m, cw)
  {
    StoreAliveEdges(h, h', m, cw, o, stored);
    StoreAliveUpvals(h, h', m, cw, o);
    hide Edges, Alive;
  }

  lemma StoreAliveUpvals(h: Heap, h': Heap, m: Marks, cw: bool, o: Ref)
    requires AliveClosed(h, m, cw) && h'.Keys == h.Keys == m.Keys && Alive(h, m, cw, o)
    requires forall x :: x in h && x != o ==> h'[x] == h[x]
    requires IsUpval(h[o]) ==> IsUpval(h'[o])
    requires h'[o].LClosure? ==> h[o].LClosure? && forall u :: u in h'[o].upvals ==>
        u in h[o].upvals || (u in h && IsUpval(h[u]))
    ensures forall x, c :: Alive(h', m, cw, x) && h'[x].LClosure? && c in h'[x].upvals ==> c in h' && IsUpval(h'[c])
  {
    forall x, c | Alive(h', m, cw, x) && h'[x].LClosure? && c in h'[x].upvals ensures c in h' && IsUpval(h'[c]) {
      hide AliveClosed;
      assert Alive(h, m, cw, x);
      if c in h[x].upvals {
        UpvalKnown(h, m, cw, x, c);
      }
    }
  }

  lemma StoreAliveEdges(h: Heap, h': Heap, m: Marks, cw: bool, o: Ref, stored: set<Ref>)
    requires AliveClosed(h, m, cw) && h'.Keys == h.Keys == m.Keys && Alive(h, m, cw, o)
    requires forall x :: x in h && x != o ==> Edges(h', x) == Edges(h, x)
    requires forall c :: c in Edges(h', o) ==> c in Edges(h, o) || c in stored
    requires forall c :: c in stored ==> Alive(h, m, cw, c)
    ensures forall x, c :: Alive(h', m, cw, x) && c in Edges(h', x) ==> Alive(h', m, cw, c)
  {
    hide Edges;
    forall x, c | Alive(h', m, cw, x) && c in Edges(h', x) ensures Alive(h', m, cw, c) {
      assert Alive(h, m, cw, x);
      assert Alive(h, m, cw, c);
    }
  }

  lemma StoreStructure(s: State, o: Ref, obj: Object)
    requires Structure(s) && o in s.heap && Storable(s.heap[o]) && Storable(obj) && SameKind(s.heap[o], obj)
    ensures Structure(StoreObj(s, o, obj))
  {
    hide Chain, NoDup, RootListOk, StringsOk, UpvalsOk;
    RootSame(s.heap, o, obj, s.rootgc, s.freeing);
    StoreStrings(s.heap, s.strt, o, obj);
    StoreUpvals(s.heap, s.uvhead, o, obj);
  }

  lemma StoreStrings(h: Heap, strt: seq<seq<Ref>>, o: Ref, obj: Object)
    requires StringsOk(h, strt) && o in h && !h[o].Str? && !obj.Str?
    ensures StringsOk(h[o := obj], strt)
  {
    hide Chain, NoDup;
    assert Interned(h[o := obj]);
    hide Interned;
  }

  lemma StoreUpvals(h: Heap, uvhead: seq<Ref>, o: Ref, obj: Object)
    requires UpvalsOk(h, uvhead) && o in h && Storable(h[o]) && Storable(obj)
    ensures UpvalsOk(h[o := obj], uvhead)
  {
    var h' := h[o := obj];
    forall t | t in h' && h'[t].Thread? ensures ThreadOk(h', t) {
      assert ThreadOk(h, t);
    }
    forall u | u in h' && h'[u].OpenUp? ensures CellOk(h', u) {
      assert CellOk(h, u);
    }
  }

  /** Right after the store, before its barrier. */
  lemma StoreStored(s: State, o: Ref, obj: Object, stored: set<Ref>)
    requires Inv(s) && s.freeing == {} && StoreOk(s, o, obj, stored)
    ensures Stored(StoreObj(s, o, obj), o, stored)
    ensures StoreObj(s, o, obj).marked.Keys == StoreObj(s, o, obj).heap.Keys
  {
    hide RootListOk, UpvalsOk, StringsOk, AliveClosed, NoDup, MarkInv, Edges, SweptRoots, SweptStrings;
    var s' := StoreObj(s, o, obj);
    InvLive(s);
    StoreLive(s, o, obj, stored);
    StoreStructure(s, o, obj);
    if s.phase.Propagate? {
      StoreMarking(s, o, obj, stored);
    } else if s.phase.Sweep? || s.phase.SweepString? {
      StoreSwept(s, o, obj);
    }
  }

  lemma StoreSwept(s: State, o: Ref, obj: Object)
    requires o in s.heap && Storable(s.heap[o]) && Storable(obj)
    requires SweptRoots(s.heap, s.marked, s.currentwhite, s.rootgc, s.sweepgc)
    ensures SweptRoots(s.heap[o := obj], s.marked, s.currentwhite, s.rootgc, s.sweepgc)
  {
  }

  lemma StoreMarking(s: State, o: Ref, obj: Object, stored: set<Ref>)
    requires s.marked.Keys == s.heap.Keys && StoreOk(s, o, obj, stored)
    requires MarkInv(s.heap, s.marked, s.currentwhite, s.gray, s.grayagain, Pending(s), {})
    ensures MarkInv(s.heap[o := obj], s.marked, s.currentwhite, s.gray, s.grayagain,
        Pending(StoreObj(s, o, obj)) + {o}, {})
    ensures s.marked[o].Black? ==>
              forall c :: c in Edges(s.heap[o := obj], o) && c !in stored ==> c in s.heap && !s.marked[c].White?
  {
    var h, h' := s.heap, s.heap[o := obj];
    assert Pending(StoreObj(s, o, obj)) == Pending(s) by { hide MarkInv, Edges,
        Alive; assert OpenUps(h') == OpenUps(h); }
    assert forall x :: x in h && x != o ==> h'[x] == h[x] && Edges(h', x) == Edges(h, x) by {
      hide MarkInv, Pending, OpenUps;
      forall x | x in h && x != o ensures Edges(h', x) == Edges(h, x) {
        StoreEdges(h, o, obj, x);
      }
    }
    hide Edges, MarkInv, Pending, OpenUps;
    assert stored <= h.Keys;
    assert HeapClosed(h) by { ClosedHeap(h, s.marked, s.currentwhite, s.gray, s.grayagain, Pending(s)); }
    MarkUpdate(h, h', s.marked, s.currentwhite, s.gray, s.grayagain, Pending(s), Pending(s) + {o});
    if s.marked[o].Black? {
      BlackSettled(s, o);
    }
  }

  predicate SameShape(a: Object, b: Object) {
    && (a.Str? <==> b.Str?) && (a.OpenUp? <==> b.OpenUp?) && (a.ClosedUp? <==> b.ClosedUp?)
    && (a.Thread? <==> b.Thread?) && (Traversable(a) <==> Traversable(b))
  }

  /** The reference from `x` to `c` is an old one, or `x` need not be settled. */
  ghost predicate OldEdge(h: Heap, m: Marks, pending: set<Ref>, x: Ref, c: Ref) {
    c in h && (c in Edges(h, x) || x in pending || (x in m && m[x].White?))
  }

  /** The tri-colour invariant survives an update of the heap that gives settled objects no new
      references; the objects it does give new references to are pending afterwards. */
  lemma MarkUpdate(h: Heap, h': Heap, m: Marks, cw: bool, gray: seq<Ref>, grayagain: seq<Ref>, X: set<Ref>, Y: set<Ref>)
    requires MarkInv(h, m, cw, gray, grayagain, X, {}) && h'.Keys == h.Keys && X <= Y
    requires forall x :: x in h ==> SameShape(h[x], h'[x])
    requires forall x, c :: x in h && c in Edges(h', x) ==> OldEdge(h, m, Elems(gray) + Y, x, c)
    ensures MarkInv(h', m, cw, gray, grayagain, Y, {})
  {
    hide Edges;
    assert HeapClosed(h') by { hide GrayOk, Settled; }
    assert Settled(h', m, Elems(gray) + Y) by { hide GrayOk, HeapClosed; }
    assert GrayOk(h', m, gray, grayagain, {}) by { hide Settled, HeapClosed, NoDup; }
  }

  lemma ClosedHeap(h: Heap, m: Marks, cw: bool, gray: seq<Ref>, grayagain: seq<Ref>, X: set<Ref>)
    requires MarkInv(h, m, cw, gray, grayagain, X, {})
    ensures HeapClosed(h)
  {
  }

  lemma BlackSettled(s: State, o: Ref)
    requires MarkInv(s.heap, s.marked, s.currentwhite, s.gray, s.grayagain, Pending(s), {})
    requires o in s.heap && s.marked[o].Black?
    ensures forall c :: c in Edges(s.heap, o) ==> c in s.heap && !s.marked[c].White?
  {
    hide Edges, NoDup;
    assert o !in s.gray && o !in s.grayagain && !s.heap[o].OpenUp?;
    assert o !in Elems(s.gray) + Pending(s);
  }

  // ---------- Writes to a stack need no barrier ----------

  function StackObj(s: State, t: Ref, gt: Value, stack: seq<Value>): State
    requires t in s.heap && s.heap[t].Thread?
  {
    s.(heap := s.heap[t := s.heap[t].(gt := gt, stack := stack)])
  }

  /** The new stack holds old values in old places and live values elsewhere, and no open upvalue
      points above it; the table of globals is the old one or live. */
  ghost predicate StackOk(s: State, t: Ref, gt: Value, stack: seq<Value>) {
    && t in s.heap && s.heap[t].Thread?
    && (AliveValue(s, gt) || gt == s.heap[t].gt)
    && (forall i :: 0 <= i < |stack| ==>
         AliveValue(s, stack[i]) || (i < |s.heap[t].stack| && stack[i] == s.heap[t].stack[i]))
    && (forall u :: u in s.heap[t].openupval && u in s.heap && s.heap[u].OpenUp? ==> s.heap[u].level < |stack|)
  }

  lemma StackEdges(s: State, t: Ref, gt: Value, stack: seq<Value>, x: Ref, c: Ref)
    requires Structure(s) && StackOk(s, t, gt, stack) && x in s.heap
    requires c in Edges(StackObj(s, t, gt, stack).heap, x)
    ensures c in Edges(s.heap, x) || Alive(s.heap, s.marked, s.currentwhite, c)
    ensures x != t && !s.heap[x].OpenUp? ==> c in Edges(s.heap, x)
  {
    hide RootListOk, StringsOk, NoDup;
    if x == t {
      if gt == Obj(c) {
      } else if Obj(c) in stack {
        var i :| 0 <= i < |stack| && stack[i] == Obj(c);
        if i < |s.heap[t].stack| && stack[i] == s.heap[t].stack[i] {
          assert Obj(c) in s.heap[t].stack;
        }
      }
    } else if s.heap[x].OpenUp? {
      assert CellOk(s.heap, x) && ThreadOk(s.heap, s.heap[x].thread);
    }
  }

  lemma StackInv(s: State, t: Ref, gt: Value, stack: seq<Value>)
    requires Inv(s) && s.freeing == {} && StackOk(s, t, gt, stack)
    ensures Inv(StackObj(s, t, gt, stack))
  {
    var s' := StackObj(s, t, gt, stack);
    hide RootListOk, StringsOk, UpvalsOk, AliveClosed, NoDup, MarkInv, SweptRoots, SweptStrings, Edges, StackOk;
    InvLive(s);
    StackStructure(s, t, gt, stack);
    StackLive(s, t, gt, stack);
    if s.phase.Propagate? {
      StackMarking(s, t, gt, stack);
    } else if s.phase.Sweep? || s.phase.SweepString? {
      StackSwept(s, t, gt, stack);
    }
  }

  lemma StackStructure(s: State, t: Ref, gt: Value, stack: seq<Value>)
    requires Structure(s) && StackOk(s, t, gt, stack)
    ensures Structure(StackObj(s, t, gt, stack))
  {
    hide Chain, NoDup, RootListOk, StringsOk, UpvalsOk;
    var obj := s.heap[t].(gt := gt, stack := stack);
    RootSame(s.heap, t, obj, s.rootgc, s.freeing);
    StoreStrings(s.heap, s.strt, t, obj);
    StackUpvals(s, t, gt, stack);
  }

  lemma RootSame(h: Heap, o: Ref, obj: Object, rootgc: seq<Ref>, freeing: set<Ref>)
    requires RootListOk(h, rootgc, freeing) && o in h && InRoot(h[o]) && InRoot(obj)
    ensures RootListOk(h[o := obj], rootgc, freeing)
  {
    hide NoDup;
  }

  lemma StackUpvals(s: State, t: Ref, gt: Value, stack: seq<Value>)
    requires UpvalsOk(s.heap, s.uvhead) && StackOk(s, t, gt, stack)
    ensures UpvalsOk(StackObj(s, t, gt, stack).heap, s.uvhead)
  {
    hide NoDup;
    var h' := StackObj(s, t, gt, stack).heap;
    forall x | x in h' && h'[x].Thread? ensures ThreadOk(h', x) {
      assert ThreadOk(s.heap, x);
    }
    forall u | u in h' && h'[u].OpenUp? ensures CellOk(h', u) {
      assert CellOk(s.heap, u);
    }
  }

  lemma StackLive(s: State, t: Ref, gt: Value, stack: seq<Value>)
    requires Live(s) && Structure(s) && StackOk(s, t, gt, stack)
    ensures Live(StackObj(s, t, gt, stack))
  {
    var s', m, cw := StackObj(s, t, gt, stack), s.marked, s.currentwhite;
    assert s'.Roots() == s.Roots();
    forall x, c | Alive(s'.heap, m, cw, x) && c in Edges(s'.heap, x) ensures Alive(s'.heap, m, cw, c) {
      assert Alive(s.heap, m, cw, x);
      hide Structure, Edges, StackOk;
      StackEdges(s, t, gt, stack, x, c);
      assert Alive(s.heap, m, cw, c);
    }
    hide Structure, Edges;
    forall x, c | Alive(s'.heap, m, cw, x) && s'.heap[x].LClosure? && c in s'.heap[x].upvals
      ensures c in s'.heap && IsUpval(s'.heap[c])
    {
      assert Alive(s.heap, m, cw, x);
    }
    assert forall r :: r in s.Roots() ==> Alive(s.heap, m, cw, r);
  }

  lemma StackSwept(s: State, t: Ref, gt: Value, stack: seq<Value>)
    requires t in s.heap && s.heap[t].Thread?
    requires SweptRoots(s.heap, s.marked, s.currentwhite, s.rootgc, s.sweepgc)
    ensures SweptRoots(StackObj(s, t, gt, stack).heap, s.marked, s.currentwhite, s.rootgc, s.sweepgc)
  {
  }

  lemma StackMarking(s: State, t: Ref, gt: Value, stack: seq<Value>)
    requires Structure(s) && StackOk(s, t, gt, stack)
    requires MarkInv(s.heap, s.marked, s.currentwhite, s.gray, s.grayagain, Pending(s), {})
    ensures var s' := StackObj(s, t, gt, stack);
            MarkInv(s'.heap, s.marked, s.currentwhite, s.gray, s.grayagain, Pending(s'), {})
  {
    var s' := StackObj(s, t, gt, stack);
    var h' := s'.heap;
    assert s.marked.Keys == s.heap.Keys == h'.Keys;
    StackShape(s, t, gt, stack);
    StackPendingSame(s, t, gt, stack);
    hide MarkInv, Structure, StackOk, Edges, SameShape, Pending, StackObj;
    StackPendings(s, t, gt, stack);
    MarkUpdate(s.heap, h', s.marked, s.currentwhite, s.gray, s.grayagain, Pending(s), Pending(s));
  }

  lemma StackPendings(s: State, t: Ref, gt: Value, stack: seq<Value>)
    requires Structure(s) && StackOk(s, t, gt, stack) && s.marked.Keys == s.heap.Keys
    requires MarkInv(s.heap, s.marked, s.currentwhite, s.gray, s.grayagain, Pending(s), {})
    ensures forall x, c :: x in s.heap && c in Edges(StackObj(s, t, gt, stack).heap, x) ==>
              OldEdge(s.heap, s.marked, Elems(s.gray) + Pending(s), x, c)
  {
    assert t in s.heap && s.heap[t].Thread?;
    hide MarkInv, Structure, StackOk, Edges, Pending, StackObj, OldEdge;
    forall x, c | x in s.heap && c in Edges(StackObj(s, t, gt, stack).heap, x)
      ensures OldEdge(s.heap, s.marked, Elems(s.gray) + Pending(s), x, c)
    {
      StackPending(s, t, gt, stack, x, c);
    }
  }

  lemma StackPendingSame(s: State, t: Ref, gt: Value, stack: seq<Value>)
    requires t in s.heap && s.heap[t].Thread?
    ensures Pending(StackObj(s, t, gt, stack)) == Pending(s)
  {
    assert OpenUps(StackObj(s, t, gt, stack).heap) == OpenUps(s.heap);
  }

  lemma StackShape(s: State, t: Ref, gt: Value, stack: seq<Value>)
    requires t in s.heap && s.heap[t].Thread?
    ensures forall x :: x in s.heap ==> SameShape(s.heap[x], StackObj(s, t, gt, stack).heap[x])
  {
  }

  lemma StackPending(s: State, t: Ref, gt: Value, stack: seq<Value>, x: Ref, c: Ref)
    requires Structure(s) && StackOk(s, t, gt, stack)
    requires MarkInv(s.heap, s.marked, s.currentwhite, s.gray, s.grayagain, Pending(s), {})
    requires x in s.heap && c in Edges(StackObj(s, t, gt, stack).heap, x)
    ensures OldEdge(s.heap, s.marked, Elems(s.gray) + Pending(s), x, c)
  {
    assert t in s.heap && s.heap[t].Thread?;
    hide MarkInv, Structure, StackOk, Edges;
    StackEdges(s, t, gt, stack, x, c);
    ClosedHeap(s.heap, s.marked, s.currentwhite, s.gray, s.grayagain, Pending(s));
    if x == t {
      ThreadPending(s, t);
    }
  }

  lemma ThreadPending(s: State, t: Ref)
    requires MarkInv(s.heap, s.marked, s.currentwhite, s.gray, s.grayagain, Pending(s), {})
    requires t in s.heap && s.heap[t].Thread?
    ensures t in s.marked
    ensures s.marked[t].White? || t in s.gray || t in Pending(s)
  {
  }

  // ---------- New objects ----------

  /** `o` is added in the current white, chained in `rootgc` at position `k`. */
  function NewObj(s: State, o: Ref, obj: Object, k: nat): State
    requires k <= |s.rootgc|
  {
    s.(heap := s.heap[o := obj], marked := s.marked[o := White(s.currentwhite)],
       rootgc := s.rootgc[..k] + [o] + s.rootgc[k..],
       sweepgc := if s.sweepgc > k then s.sweepgc + 1 else s.sweepgc)
  }

  ghost predicate NewOk(s: State, o: Ref, obj: Object) {
    && o !in s.heap
    && (obj.Thread? ==> obj.openupval == [])
    && (obj.LClosure? ==> forall u :: u in obj.upvals ==> u in s.heap && IsUpval(s.heap[u]))
    && (forall c :: c in Edges(s.heap[o := obj], o) ==> Alive(s.heap, s.marked, s.currentwhite, c))
  }

  /** The new heap looks the same from every old object. */
  lemma NewEdges(s: State, o: Ref, obj: Object, x: Ref)
    requires UpvalsOk(s.heap, s.uvhead) && o !in s.heap && x in s.heap
    ensures Edges(s.heap[o := obj], x) == Edges(s.heap, x)
  {
    if s.heap[x].OpenUp? {
      assert CellOk(s.heap, x);
    }
  }

  lemma NewEdgesAll(s: State, o: Ref, obj: Object)
    requires Structure(s) && o !in s.heap
    ensures forall x :: x in s.heap ==>
        s.heap[o := obj][x] == s.heap[x] && Edges(s.heap[o := obj], x) == Edges(s.heap, x)
  {
    hide RootListOk, StringsOk, UpvalsOk, Edges;
    forall x | x in s.heap ensures Edges(s.heap[o := obj], x) == Edges(s.heap, x) {
      NewEdges(s, o, obj, x);
    }
  }

  lemma NewLive(s: State, s': State, o: Ref, obj: Object)
    requires Live(s) && Structure(s) && NewOk(s, o, obj)
    requires SameRoots(s, s') && s'.heap == s.heap[o := obj] && s'.marked == s.marked[o := White(s.currentwhite)]
    requires s'.currentwhite == s.currentwhite
    ensures Live(s')
  {
    NewEdgesAll(s, o, obj);
    LiveFacts(s);
    assert s.marked.Keys == s.heap.Keys;
    hide Structure, Edges, AliveClosed;
    NewAlive(s.heap, s'.heap, s.marked, s'.marked, s.currentwhite, o);
    assert s'.Roots() == s.Roots();
    assert forall r :: r in s.Roots() ==> Alive(s.heap, s.marked, s.currentwhite, r);
  }

  lemma NewAlive(h: Heap, h': Heap, m: Marks, m': Marks, cw: bool, o: Ref)
    requires AliveClosed(h, m, cw) && o !in h && m.Keys == h.Keys
    requires h'.Keys == h.Keys + {o} && m' == m[o := White(cw)]
    requires forall x :: x in h ==> h'[x] == h[x] && Edges(h', x) == Edges(h, x)
    requires forall c :: c in Edges(h', o) ==> Alive(h, m, cw, c)
    requires h'[o].LClosure? ==> forall u :: u in h'[o].upvals ==> u in h && IsUpval(h[u])
    ensures AliveClosed(h', m', cw)
  {
    hide *;
    NewAliveEdges(h, h', m, m', cw, o);
    NewAliveUpvals(h, h', m, m', cw, o);
    ClosedAlive(h', m', cw);
  }

  lemma ClosedAlive(h: Heap, m: Marks, cw: bool)
    requires forall o, c :: Alive(h, m, cw, o) && c in Edges(h, o) ==> Alive(h, m, cw, c)
    requires forall o, c :: Alive(h, m, cw, o) && h[o].LClosure? && c in h[o].upvals ==> c in h && IsUpval(h[c])
    ensures AliveClosed(h, m, cw)
  {
    hide Edges, IsUpval;
  }

  lemma NewAliveUpvals(h: Heap, h': Heap, m: Marks, m': Marks, cw: bool, o: Ref)
    requires AliveClosed(h, m, cw) && o !in h && m.Keys == h.Keys
    requires h'.Keys == h.Keys + {o} && m' == m[o := White(cw)]
    requires forall x :: x in h ==> h'[x] == h[x]
    requires h'[o].LClosure? ==> forall u :: u in h'[o].upvals ==> u in h && IsUpval(h[u])
    ensures forall x, c :: Alive(h', m', cw, x) && h'[x].LClosure? && c in h'[x].upvals ==> c in h' && IsUpval(h'[c])
  {
    hide Edges;
    forall x, c | Alive(h', m', cw, x) && h'[x].LClosure? && c in h'[x].upvals ensures c in h' && IsUpval(h'[c]) {
      if x != o {
        assert Alive(h, m, cw, x);
        UpvalKnown(h, m, cw, x, c);
      }
    }
  }

  lemma UpvalKnown(h: Heap, m: Marks, cw: bool, x: Ref, c: Ref)
    requires AliveClosed(h, m, cw) && Alive(h, m, cw, x) && h[x].LClosure? && c in h[x].upvals
    ensures c in h && IsUpval(h[c])
  {
    hide Edges;
  }

  lemma NewAliveEdges(h: Heap, h': Heap, m: Marks, m': Marks, cw: bool, o: Ref)
    requires AliveClosed(h, m, cw) && o !in h && m.Keys == h.Keys
    requires h'.Keys == h.Keys + {o} && m' == m[o := White(cw)]
    requires forall x :: x in h ==> Edges(h', x) == Edges(h, x)
    requires forall c :: c in Edges(h', o) ==> Alive(h, m, cw, c)
    ensures forall x, c :: Alive(h', m', cw, x) && c in Edges(h', x) ==> Alive(h', m', cw, c)
  {
    hide Edges;
    forall x, c | Alive(h', m', cw, x) && c in Edges(h', x) ensures Alive(h', m', cw, c) {
      assert x != o ==> Alive(h, m, cw, x);
      assert Alive(h, m, cw, c);
    }
  }

  lemma NewStructure(s: State, o: Ref, obj: Object, k: nat)
    requires Structure(s) && NewOk(s, o, obj) && InRoot(obj) && k <= |s.rootgc|
    ensures Structure(NewObj(s, o, obj, k))
  {
    hide Chain, NoDup, RootListOk, StringsOk, UpvalsOk, Edges;
    NewRoot(s.heap, o, obj, s.rootgc, s.freeing, k);
    NewStrings(s.heap, s.strt, o, obj);
    NewUpvals(s.heap, s.uvhead, o, obj);
  }

  lemma NewRoot(h: Heap, o: Ref, obj: Object, rootgc: seq<Ref>, freeing: set<Ref>, k: nat)
    requires RootListOk(h, rootgc, freeing) && o !in h && InRoot(obj) && k <= |rootgc|
    ensures RootListOk(h[o := obj], rootgc[..k] + [o] + rootgc[k..], freeing)
  {
    assert o !in rootgc;
    NoDupInsert(rootgc, k, o);
    hide NoDup;
  }

  lemma NewStrings(h: Heap, strt: seq<seq<Ref>>, o: Ref, obj: Object)
    requires StringsOk(h, strt) && o !in h && !obj.Str?
    ensures StringsOk(h[o := obj], strt)
  {
    hide Chain, NoDup;
    assert Interned(h[o := obj]);
    hide Interned;
  }

  lemma NewUpvals(h: Heap, uvhead: seq<Ref>, o: Ref, obj: Object)
    requires UpvalsOk(h, uvhead) && o !in h && !obj.OpenUp? && (obj.Thread? ==> obj.openupval == [])
    ensures UpvalsOk(h[o := obj], uvhead)
  {
    hide NoDup;
    var h' := h[o := obj];
    forall t | t in h' && h'[t].Thread? ensures ThreadOk(h', t) {
      if t != o {
        assert ThreadOk(h, t);
      }
    }
    forall u | u in h' && h'[u].OpenUp? ensures CellOk(h', u) {
      assert CellOk(h, u);
    }
  }

  lemma NewInv(s: State, o: Ref, obj: Object, k: nat)
    requires Inv(s) && s.freeing == {} && NewOk(s, o, obj) && InRoot(obj) && k <= |s.rootgc|
    ensures Inv(NewObj(s, o, obj, k))
  {
    hide RootListOk, StringsOk, UpvalsOk, NoDup, MarkInv, SweptRoots, SweptStrings, Edges, NewOk, Live;
    var s' := NewObj(s, o, obj, k);
    InvLive(s);
    NewStructure(s, o, obj, k);
    NewLive(s, s', o, obj);
    if s.phase.Propagate? {
      NewMarking(s, o, obj);
      assert s.mainthread != o && s.registry != o by { hide Structure; assert o !in s.heap by { NewIsFresh(s, o,
          obj); } }
    } else if s.phase.Sweep? || s.phase.SweepString? {
      NewSwept(s, o, obj, k);
      NewSweptStrings(s, o);
    }
  }

  lemma NewMarking(s: State, o: Ref, obj: Object)
    requires Structure(s) && NewOk(s, o, obj) && !obj.OpenUp?
    requires MarkInv(s.heap, s.marked, s.currentwhite, s.gray, s.grayagain, Pending(s), {})
    ensures MarkInv(s.heap[o := obj], s.marked[o := White(s.currentwhite)], s.currentwhite, s.gray, s.grayagain,
                    Elems(s.grayagain) + OpenUps(s.heap[o := obj]), {})
  {
    hide Structure, Edges, MarkInv;
    NewIsFresh(s, o, obj);
    NewOpenUps(s.heap, o, obj);
    NewEdgesAll(s, o, obj);
    hide OpenUps;
    forall c | c in Edges(s.heap[o := obj], o) ensures c in s.heap {
      assert Alive(s.heap, s.marked, s.currentwhite, c);
    }
    NewMark(s.heap, s.heap[o := obj], s.marked, s.currentwhite, s.gray, s.grayagain, Pending(s), o);
  }

  lemma NewOpenUps(h: Heap, o: Ref, obj: Object)
    requires o !in h && !obj.OpenUp?
    ensures OpenUps(h[o := obj]) == OpenUps(h)
  {
  }

  lemma NewMark(h: Heap, h': Heap, m: Marks, cw: bool, gray: seq<Ref>, grayagain: seq<Ref>, X: set<Ref>, o: Ref)
    requires MarkInv(h, m, cw, gray, grayagain, X, {}) && o !in h && h'.Keys == h.Keys + {o}
    requires forall x :: x in h ==> h'[x] == h[x] && Edges(h', x) == Edges(h, x)
    requires forall c :: c in Edges(h', o) ==> c in h
    ensures MarkInv(h', m[o := White(cw)], cw, gray, grayagain, X, {})
  {
    hide HeapClosed, Settled, GrayOk, Edges;
    AddedSettled(h, h', m, cw, Elems(gray) + X, Elems(gray) + X, o);
    AddedGray(h, h', m, cw, gray, grayagain, o);
  }

  /** A new white object, referring to existing ones and referred to by none, is settled. */
  lemma AddedSettled(h: Heap, h': Heap, m: Marks, cw: bool, X: set<Ref>, Y: set<Ref>, o: Ref)
    requires m.Keys == h.Keys && o !in h && h'.Keys == h.Keys + {o} && X <= Y
    requires Settled(h, m, X) && HeapClosed(h)
    requires forall x :: x in h ==> Edges(h', x) == Edges(h, x)
    requires forall c :: c in Edges(h', o) ==> c in h
    ensures Settled(h', m[o := White(cw)], Y) && HeapClosed(h')
  {
    hide Edges;
  }

  lemma AddedGray(h: Heap, h': Heap, m: Marks, cw: bool, gray: seq<Ref>, grayagain: seq<Ref>, o: Ref)
    requires m.Keys == h.Keys && o !in h && h'.Keys == h.Keys + {o} && GrayOk(h, m, gray, grayagain, {})
    requires forall x :: x in h ==> SameShape(h[x], h'[x])
    ensures GrayOk(h', m[o := White(cw)], gray, grayagain, {})
  {
    hide NoDup;
  }

  lemma NewIsFresh(s: State, o: Ref, obj: Object)
    requires NewOk(s, o, obj)
    ensures o !in s.heap
  {
  }

  lemma NewSwept(s: State, o: Ref, obj: Object, k: nat)
    requires NewOk(s, o, obj) && k <= |s.rootgc|
    requires SweptRoots(s.heap, s.marked, s.currentwhite, s.rootgc, s.sweepgc)
    ensures var s' := NewObj(s, o, obj, k); SweptRoots(s'.heap, s'.marked, s'.currentwhite, s'.rootgc, s'.sweepgc)
  {
    hide Edges;
    var s' := NewObj(s, o, obj, k);
    forall i | 0 <= i < s'.sweepgc && i < |s'.rootgc|
      ensures Fresh(s'.marked, s'.currentwhite, s'.rootgc[i])
      ensures s'.rootgc[i] in s'.heap && s'.heap[s'.rootgc[i]].Thread? ==>
                forall u :: u in s'.heap[s'.rootgc[i]].openupval ==> Fresh(s'.marked, s'.currentwhite, u)
    {
      if i != k {
        assert s'.rootgc[i] == s.rootgc[if i < k then i else i - 1];
        assert Fresh(s.marked, s.currentwhite, s.rootgc[if i < k then i else i - 1]);
      }
    }
  }

  lemma NewSweptStrings(s: State, o: Ref)
    requires SweptStrings(s.marked, s.currentwhite, s.strt, s.sweepstrgc)
    ensures SweptStrings(s.marked[o := White(s.currentwhite)], s.currentwhite, s.strt, s.sweepstrgc)
  {
  }

  // ---------- Getting hold of an object that was not reachable ----------

  /** `changewhite` on a dead object whose references are not dead brings it back to life. */
  lemma ReviveInv(s: State, o: Ref)
    requires Inv(s) && s.freeing == {} && o in s.heap && o in s.marked && IsDead(s.marked, s.currentwhite, o)
    requires !s.heap[o].LClosure?
    requires forall c :: c in Edges(s.heap, o) ==> Alive(s.heap, s.marked, s.currentwhite, c)
    ensures Inv(Whiten(s, o))
  {
    hide RootListOk, StringsOk, UpvalsOk, NoDup, SweptRoots, SweptStrings, Edges, AliveClosed;
    var s' := Whiten(s, o);
    OnlySweepHasDead(s, o);
    LiveFacts(s);
    ReviveAlive(s.heap, s.marked, s.currentwhite, o);
    assert Live(s') by {
      assert s'.Roots() == s.Roots();
      assert forall r :: r in s.Roots() ==> Alive(s.heap, s.marked, s.currentwhite, r);
    }
    WhitenSwept(s, o);
  }

  lemma OnlySweepHasDead(s: State, o: Ref)
    requires Inv(s) && o in s.heap && o in s.marked && IsDead(s.marked, s.currentwhite, o)
    ensures s.phase.Sweep? || s.phase.SweepString?
  {
    hide Structure, Live, Settled, GrayOk, HeapClosed;
  }

  lemma ReviveAlive(h: Heap, m: Marks, cw: bool, o: Ref)
    requires AliveClosed(h, m, cw) && o in h && m.Keys == h.Keys && !h[o].LClosure?
    requires forall c :: c in Edges(h, o) ==> Alive(h, m, cw, c)
    ensures AliveClosed(h, m[o := White(cw)], cw)
  {
    hide Edges;
    var m' := m[o := White(cw)];
    forall x, c | Alive(h, m', cw, x) && c in Edges(h, x) ensures Alive(h, m', cw, c) {
      if x != o {
        assert Alive(h, m, cw, x);
      }
      assert Alive(h, m, cw, c);
    }
    forall x, c | Alive(h, m', cw, x) && h[x].LClosure? && c in h[x].upvals ensures c in h && IsUpval(h[c]) {
      assert Alive(h, m, cw, x);
    }
  }

  // ---------- New strings ----------

  function NewString(s: State, o: Ref, obj: Object): State
    requires obj.Str? && |s.strt| > 0 && Chain(obj.hash, |s.strt|) < |s.strt|
  {
    var c := Chain(obj.hash, |s.strt|);
    s.(heap := s.heap[o := obj], marked := s.marked[o := White(s.currentwhite)],
       strt := s.strt[c := [o] + s.strt[c]])
  }

  lemma NewStringInv(s: State, o: Ref, obj: Object)
    requires Inv(s) && s.freeing == {} && o !in s.heap && obj.Str?
    requires |s.strt| > 0 && Chain(obj.hash, |s.strt|) < |s.strt|
    requires forall x :: x in s.strt[Chain(obj.hash, |s.strt|)] && x in s.heap ==> s.heap[x] != obj
    ensures Inv(NewString(s, o, obj))
  {
    hide RootListOk, StringsOk, UpvalsOk, NoDup, MarkInv, SweptRoots, SweptStrings, Edges, NewOk, Live, Chain;
    var s' := NewString(s, o, obj);
    InvLive(s);
    NewStringOk(s, o, obj);
    NewLive(s, s', o, obj);
    assert Structure(s') by { NewStringStructure(s, o, obj); }
    if s.phase.Propagate? {
      NewMarking(s, o, obj);
      assert s.mainthread != o && s.registry != o;
    } else if s.phase.Sweep? || s.phase.SweepString? {
      NewStringSwept(s, o, obj);
    }
  }

  lemma NewStringOk(s: State, o: Ref, obj: Object)
    requires o !in s.heap && obj.Str?
    ensures NewOk(s, o, obj)
  {
  }

  lemma NewStringStructure(s: State, o: Ref, obj: Object)
    requires Structure(s) && o !in s.heap && obj.Str?
    requires |s.strt| > 0 && Chain(obj.hash, |s.strt|) < |s.strt|
    requires forall x :: x in s.strt[Chain(obj.hash, |s.strt|)] && x in s.heap ==> s.heap[x] != obj
    ensures Structure(NewString(s, o, obj))
  {
    hide NoDup, RootListOk, UpvalsOk, StringsOk, Chain;
    NewStringRoot(s.heap, o, obj, s.rootgc, s.freeing);
    NewUpvals(s.heap, s.uvhead, o, obj);
    NewStringChains(s.heap, s.strt, o, obj);
  }

  lemma NewStringRoot(h: Heap, o: Ref, obj: Object, rootgc: seq<Ref>, freeing: set<Ref>)
    requires RootListOk(h, rootgc, freeing) && o !in h && !InRoot(obj)
    ensures RootListOk(h[o := obj], rootgc, freeing)
  {
    hide NoDup;
  }

  lemma NewStringChains(h: Heap, strt: seq<seq<Ref>>, o: Ref, obj: Object)
    requires StringsOk(h, strt) && o !in h && obj.Str? && Chain(obj.hash, |strt|) < |strt|
    requires forall x :: x in strt[Chain(obj.hash, |strt|)] && x in h ==> h[x] != obj
    ensures var c := Chain(obj.hash, |strt|); StringsOk(h[o := obj], strt[c := [o] + strt[c]])
  {
    hide Chain;
    var c := Chain(obj.hash, |strt|);
    var h', strt' := h[o := obj], strt[c := [o] + strt[c]];
    assert ChainsHoldStrings(h', strt') by {
      hide StringsInChains, Interned, NoDup;
      forall i, x | 0 <= i < |strt'| && x in strt'[i] ensures x in h' && h'[x].Str? && Chain(h'[x].hash, |strt'|) == i {
        assert x == o || x in strt[i];
      }
    }
    assert StringsInChains(h', strt') by { hide ChainsHoldStrings, Interned, NoDup; }
    assert o !in strt[c] by { hide StringsInChains, Interned, NoDup; }
    assert Interned(h') by {
      hide ChainsHoldStrings, NoDup;
      assert forall a :: a in h && h[a] == obj ==> a in strt[c];
    }
  }

  lemma NewStringSwept(s: State, o: Ref, obj: Object)
    requires obj.Str? && o !in s.heap && |s.strt| > 0 && Chain(obj.hash, |s.strt|) < |s.strt|
    requires SweptRoots(s.heap, s.marked, s.currentwhite, s.rootgc, s.sweepgc)
    requires SweptStrings(s.marked, s.currentwhite, s.strt, s.sweepstrgc)
    ensures var s' := NewString(s, o, obj);
            SweptRoots(s'.heap, s'.marked, s'.currentwhite, s'.rootgc, s'.sweepgc) &&
            SweptStrings(s'.marked, s'.currentwhite, s'.strt, s'.sweepstrgc)
  {
    hide Chain;
  }

  // ---------- New open upvalues ----------

  function AddCell(t: Object, j: nat, u: Ref): Object
    requires t.Thread? && j <= |t.openupval|
  {
    t.(openupval := t.openupval[..j] + [u] + t.openupval[j..])
  }

  /** `u` becomes the cell of slot `level` of `t`, chained at position `j` and in front of `uvhead`. */
  function NewCell(s: State, u: Ref, t: Ref, level: nat, j: nat): State
    requires t in s.heap && s.heap[t].Thread? && j <= |s.heap[t].openupval|
  {
    s.(heap := s.heap[u := OpenUp(t, level)][t := AddCell(s.heap[t], j, u)],
       marked := s.marked[u := White(s.currentwhite)],
       uvhead := [u] + s.uvhead)
  }

  /** Position `j` is where the list, decreasing in level, has room for `level`. */
  ghost predicate CellFits(h: Heap, t: Ref, level: nat, j: nat) {
    && t in h && h[t].Thread? && level < |h[t].stack| && j <= |h[t].openupval|
    && (forall k :: 0 <= k < |h[t].openupval| ==>
         var u := h[t].openupval[k];
         u in h && h[u].OpenUp? && (if k < j then h[u].level > level else h[u].level < level))
  }

  lemma NewCellUpvals(h: Heap, h': Heap, uvhead: seq<Ref>, u: Ref, t: Ref, level: nat, j: nat)
    requires UpvalsOk(h, uvhead) && CellFits(h, t, level, j) && u !in h
    requires h' == h[u := OpenUp(t, level)][t := AddCell(h[t], j, u)]
    ensures UpvalsOk(h', [u] + uvhead)
  {
    hide NoDup;
    forall x | x in h' && h'[x].Thread? ensures ThreadOk(h', x) {
      assert ThreadOk(h, x);
      if x == t {
        NewCellThread(h, h', u, t, level, j);
      }
    }
    forall x | x in h' && h'[x].OpenUp? ensures CellOk(h', x) {
      if x != u {
        assert CellOk(h, x);
        NewCellKept(h, h', u, t, level, j, x);
      } else {
        assert h'[t].openupval[j] == u;
      }
    }
    assert NoDup([u] + uvhead) by { NewHead(uvhead, u); }
  }

  lemma NewHead(s: seq<Ref>, u: Ref)
    requires NoDup(s) && u !in s
    ensures NoDup([u] + s)
  {
  }

  lemma NewCellThread(h: Heap, h': Heap, u: Ref, t: Ref, level: nat, j: nat)
    requires CellFits(h, t, level, j) && u !in h && ThreadOk(h, t)
    requires h' == h[u := OpenUp(t, level)][t := AddCell(h[t], j, u)]
    ensures ThreadOk(h', t)
  {
    var us, us' := h[t].openupval, h'[t].openupval;
    forall x | x in us' ensures x in h' && h'[x].OpenUp? && h'[x].thread == t && h'[x].level < |h'[t].stack| {
      assert x == u || x in us;
    }
    NewCellSorted(h, us, u, h', us', j, level);
  }

  lemma NewCellSorted(h: Heap, us: seq<Ref>, u: Ref, h': Heap, us': seq<Ref>, j: nat, level: nat)
    requires j <= |us| && us' == us[..j] + [u] + us[j..]
    requires forall x :: x in us ==> x in h && h[x].OpenUp? && x in h' && h'[x] == h[x]
    requires forall k :: 0 <= k < |us| ==> if k < j then h[us[k]].level > level else h[us[k]].level < level
    requires Decreasing(h, us) && u in h' && h'[u].OpenUp? && h'[u].level == level
    requires forall x :: x in us' ==> x in h' && h'[x].OpenUp?
    ensures Decreasing(h', us')
  {
    forall a, b | 0 <= a < b < |us'| ensures h'[us'[a]].level > h'[us'[b]].level {
      assert us'[a] == if a < j then us[a] else if a == j then u else us[a - 1];
      assert us'[b] == if b < j then us[b] else if b == j then u else us[b - 1];
    }
  }

  lemma NewCellKept(h: Heap, h': Heap, u: Ref, t: Ref, level: nat, j: nat, x: Ref)
    requires CellFits(h, t, level, j) && u !in h && x in h && h[x].OpenUp? && CellOk(h, x)
    requires h' == h[u := OpenUp(t, level)][t := AddCell(h[t], j, u)]
    ensures CellOk(h', x)
  {
    var us, us' := h[t].openupval, h'[t].openupval;
    if h[x].thread == t {
      var i :| 0 <= i < |us| && us[i] == x;
      assert us'[if i < j then i else i + 1] == x;
    }
  }

  /** The graph gained one cell, which refers to nothing its thread does not refer to. */
  ghost predicate CellAdded(h: Heap, h': Heap, u: Ref, t: Ref) {
    && u !in h && h'.Keys == h.Keys + {u} && h'[u].OpenUp?
    && (forall x :: x in h ==> SameShape(h[x], h'[x]) && Edges(h', x) == Edges(h, x))
    && (forall x :: x in h && h'[x].LClosure? ==> h[x] == h'[x])
    && (forall x :: x in h && IsUpval(h[x]) ==> IsUpval(h'[x]))
    && (forall c :: c in Edges(h', u) ==> c in Edges(h, t))
  }

  lemma NewCellEdges(s: State, u: Ref, t: Ref, level: nat, j: nat)
    requires UpvalsOk(s.heap, s.uvhead) && CellFits(s.heap, t, level, j) && u !in s.heap
    ensures CellAdded(s.heap, NewCell(s, u, t, level, j).heap, u, t)
  {
    var h' := NewCell(s, u, t, level, j).heap;
    forall x | x in s.heap ensures Edges(h', x) == Edges(s.heap, x) {
      if s.heap[x].OpenUp? {
        assert CellOk(s.heap, x);
      }
    }
    assert s.heap[t].stack[level] in s.heap[t].stack;
  }

  lemma NewCellInv(s: State, u: Ref, t: Ref, level: nat, j: nat)
    requires Inv(s) && s.freeing == {} && CellFits(s.heap, t, level, j) && u !in s.heap
    requires Alive(s.heap, s.marked, s.currentwhite, t)
    ensures Inv(NewCell(s, u, t, level, j))
  {
    var s' := NewCell(s, u, t, level, j);
    hide RootListOk, StringsOk, UpvalsOk, NoDup, MarkInv, SweptRoots, SweptStrings, Edges, Live, CellFits, AddCell,
        CellAdded, Structure;
    InvLive(s);
    UpvalsOfStructure(s);
    NewCellEdges(s, u, t, level, j);
    NewCellStructure(s, u, t, level, j);
    NewCellLive(s, s', u, t);
    NewCellPhase(s, s', u, t, level, j);
  }

  lemma NewCellPhase(s: State, s': State, u: Ref, t: Ref, level: nat, j: nat)
    requires Inv(s) && s.freeing == {} && CellFits(s.heap, t, level, j) && u !in s.heap
    requires s' == NewCell(s, u, t, level, j) && CellAdded(s.heap, s'.heap, u, t)
    requires Structure(s') && Live(s')
    ensures Inv(s')
  {
    assert t in s.heap && s.heap[t].Thread?;
    NewCellKeys(s, u, t, level, j);
    hide *;
    if s.phase.Propagate? {
      NewCellPropagate(s, NewCell(s, u, t, level, j), u, t);
    } else {
      NewCellLater(s, s', u, t, level, j);
    }
  }

  lemma NewCellLater(s: State, s': State, u: Ref, t: Ref, level: nat, j: nat)
    requires Inv(s) && !s.phase.Propagate? && s.freeing == {} && CellFits(s.heap, t, level, j) && u !in s.heap
    requires s' == NewCell(s, u, t, level, j) && Structure(s') && Live(s')
    ensures Inv(s')
  {
    InvKeys(s);
    hide Structure, Live;
    if s.phase.Sweep? || s.phase.SweepString? {
      NewCellSweeping(s, u, t, level, j);
    }
  }

  lemma NewCellKeys(s: State, u: Ref, t: Ref, level: nat, j: nat)
    requires CellFits(s.heap, t, level, j)
    ensures var s' := NewCell(s, u, t, level, j);
            && s'.heap.Keys == s.heap.Keys + {u}
            && s' == s.(heap := s'.heap, marked := s.marked[u := White(s.currentwhite)], uvhead := s'.uvhead)
  {
  }

  lemma NewCellSweeping(s: State, u: Ref, t: Ref, level: nat, j: nat)
    requires Sweeping(s) && s.marked.Keys == s.heap.Keys && CellFits(s.heap, t, level, j) && u !in s.heap
    ensures Sweeping(NewCell(s, u, t, level, j))
  {
    NewCellSwept(s, u, t, level, j);
    NewSweptStrings(s, u);
    hide SweptRoots, SweptStrings;
  }

  lemma NewCellPropagate(s: State, s': State, u: Ref, t: Ref)
    requires Inv(s) && s.phase.Propagate? && s.freeing == {} && u !in s.heap && t in s.heap
    requires s' == s.(heap := s'.heap, marked := s.marked[u := White(s.currentwhite)], uvhead := s'.uvhead)
    requires CellAdded(s.heap, s'.heap, u, t) && s'.heap.Keys == s.heap.Keys + {u}
    requires Structure(s') && Live(s')
    ensures Inv(s')
  {
    InvKeys(s);
    hide MarkInv, Edges, Live, CellAdded, Structure;
    NewCellMark(s.heap, s'.heap, s.marked, s.currentwhite, s.gray, s.grayagain, Pending(s), u, t);
    NewCellPending(s, s', u, t);
    NewCellRoots(s, s', u);
    hide Pending;
    PropagateInv(s');
  }

  lemma NewCellRoots(s: State, s': State, u: Ref)
    requires Inv(s) && s.phase.Propagate? && u !in s.heap && SameRoots(s, s')
    requires s'.marked == s.marked[u := White(s.currentwhite)] && s'.heap.Keys == s.heap.Keys + {u}
    ensures s'.mainthread in s'.heap && !s'.marked[s'.mainthread].White?
    ensures s'.registry in s'.heap && !s'.marked[s'.registry].White?
  {
    hide MarkInv, Live, RootListOk, StringsOk, UpvalsOk;
  }

  lemma NewCellStructure(s: State, u: Ref, t: Ref, level: nat, j: nat)
    requires Structure(s) && CellFits(s.heap, t, level, j) && u !in s.heap
    ensures Structure(NewCell(s, u, t, level, j))
  {
    var s' := NewCell(s, u, t, level, j);
    hide RootListOk, StringsOk, UpvalsOk, NoDup;
    NewCellUpvals(s.heap, s'.heap, s.uvhead, u, t, level, j);
    var h1 := s.heap[u := OpenUp(t, level)];
    NewStringRoot(s.heap, u, OpenUp(t, level), s.rootgc, s.freeing);
    RootSame(h1, t, s'.heap[t], s.rootgc, s.freeing);
    NewStrings(s.heap, s.strt, u, OpenUp(t, level));
    StoreStrings(h1, s.strt, t, s'.heap[t]);
  }

  lemma NewCellLive(s: State, s': State, u: Ref, t: Ref)
    requires Live(s) && s.marked.Keys == s.heap.Keys && CellAdded(s.heap, s'.heap, u, t)
    requires Alive(s.heap, s.marked, s.currentwhite, t)
    requires SameRoots(s, s') && s'.currentwhite == s.currentwhite && s'.marked == s.marked[u := White(s.currentwhite)]
    ensures Live(s')
  {
    hide Edges, SameShape, AliveClosed;
    var h, m, cw := s.heap, s.marked, s.currentwhite;
    forall c | c in Edges(s'.heap, u) ensures Alive(h, m, cw, c) {
      EdgeAlive(s, t, c);
    }
    NewCellAlive(h, s'.heap, m, cw, u, t);
    assert s'.Roots() == s.Roots();
    assert forall r :: r in s.Roots() ==> Alive(h, m, cw, r);
  }

  lemma NewCellAlive(h: Heap, h': Heap, m: Marks, cw: bool, u: Ref, t: Ref)
    requires AliveClosed(h, m, cw) && m.Keys == h.Keys && CellAdded(h, h', u, t)
    requires forall c :: c in Edges(h', u) ==> Alive(h, m, cw, c)
    ensures AliveClosed(h', m[u := White(cw)], cw)
  {
    hide Edges, SameShape;
    var m' := m[u := White(cw)];
    forall x, c | Alive(h', m', cw, x) && c in Edges(h', x) ensures Alive(h', m', cw, c) {
      if x != u {
        assert Alive(h, m, cw, x);
      }
      assert Alive(h, m, cw, c);
    }
    forall x, c | Alive(h', m', cw, x) && h'[x].LClosure? && c in h'[x].upvals ensures c in h' && IsUpval(h'[c]) {
      assert Alive(h, m, cw, x);
    }
  }

  lemma NewCellMark(h: Heap, h': Heap, m: Marks, cw: bool, gray: seq<Ref>, grayagain: seq<Ref>, X: set<Ref>, u: Ref,
      t: Ref)
    requires MarkInv(h, m, cw, gray, grayagain, X, {}) && CellAdded(h, h', u, t) && t in h
    ensures MarkInv(h', m[u := White(cw)], cw, gray, grayagain, X + {u}, {})
  {
    hide HeapClosed, Settled, GrayOk, Edges, SameShape;
    assert forall c :: c in Edges(h', u) ==> c in h by { ClosedEdge(h, t); }
    AddedSettled(h, h', m, cw, Elems(gray) + X, Elems(gray) + (X + {u}), u);
    AddedGray(h, h', m, cw, gray, grayagain, u);
  }

  lemma ClosedEdge(h: Heap, t: Ref)
    requires HeapClosed(h) && t in h
    ensures forall c :: c in Edges(h, t) ==> c in h
  {
    hide Edges;
  }

  lemma NewCellPending(s: State, s': State, u: Ref, t: Ref)
    requires CellAdded(s.heap, s'.heap, u, t) && s'.grayagain == s.grayagain
    ensures Pending(s') == Pending(s) + {u}
  {
    hide Edges;
  }

  lemma NewCellSwept(s: State, u: Ref, t: Ref, level: nat, j: nat)
    requires CellFits(s.heap, t, level, j) && u !in s.heap
    requires SweptRoots(s.heap, s.marked, s.currentwhite, s.rootgc, s.sweepgc)
    ensures var s' := NewCell(s, u, t, level, j);
            SweptRoots(s'.heap, s'.marked, s'.currentwhite, s'.rootgc, s'.sweepgc)
  {
    var s' := NewCell(s, u, t, level, j);
    assert forall x :: x in s'.heap[t].openupval ==> x == u || x in s.heap[t].openupval;
    forall i | 0 <= i < s'.sweepgc && i < |s'.rootgc|
      ensures Fresh(s'.marked, s'.currentwhite, s'.rootgc[i])
      ensures s'.rootgc[i] in s'.heap && s'.heap[s'.rootgc[i]].Thread? ==>
                forall x :: x in s'.heap[s'.rootgc[i]].openupval ==> Fresh(s'.marked, s'.currentwhite, x)
    {
      assert Fresh(s.marked, s.currentwhite, s.rootgc[i]);
    }
  }

  // ---------- Roots ----------

  lemma SetRootsInv(s: State, s': State)
    requires Inv(s)
    requires s' == s.(running := s'.running, mt := s'.mt)
    requires s'.running in s.heap && s.heap[s'.running].Thread?
    requires forall r :: r in {s'.running} + RefsOf(s'.mt) ==> Alive(s.heap, s.marked, s.currentwhite, r)
    ensures Inv(s')
  {
    hide RootListOk, StringsOk, UpvalsOk, MarkInv, SweptRoots, SweptStrings, AliveClosed;
    assert s.mainthread in s.Roots() && s.registry in s.Roots();
  }

  // ---------- What the program holds ----------

  /** Whatever sits in a stack slot of the running thread is reachable. */
  lemma SlotReachable(s: State, v: Value)
    requires Structure(s) && v.Obj? && v in s.heap[s.running].stack
    ensures Reachable(s.heap, s.Roots(), v.ref)
  {
    hide RootListOk, StringsOk, UpvalsOk;
    ReachableRoot(s.heap, s.Roots(), s.running);
    assert v.ref in Edges(s.heap, s.running);
    ReachableEdge(s.heap, s.Roots(), s.running, v.ref);
  }

  /** A live object's references are live. */
  lemma EdgeAlive(s: State, o: Ref, c: Ref)
    requires Live(s) && Alive(s.heap, s.marked, s.currentwhite, o) && c in Edges(s.heap, o)
    ensures Alive(s.heap, s.marked, s.currentwhite, c)
  {
    hide Edges;
  }

  /** What a field of a live object holds is live. */
  lemma FieldsAlive(s: State, o: Ref)
    requires Inv(s) && Alive(s.heap, s.marked, s.currentwhite, o)
    ensures FieldsIn(s.heap, s.heap[o], AliveSet(s.heap, s.marked, s.currentwhite))
  {
    InvLive(s);
    hide Inv;
    LiveFields(s);
    hide FieldsIn;
  }

  lemma BasicMtAlive(s: State, i: nat)
    requires Inv(s) && i < |s.mt|
    ensures OptIn(s.mt[i], AliveSet(s.heap, s.marked, s.currentwhite))
  {
    InvLive(s);
    hide Inv;
    LiveFields(s);
  }

  lemma RootAlive(s: State, r: Ref)
    requires Inv(s) && r in {s.running, s.mainthread, s.registry}
    ensures Alive(s.heap, s.marked, s.currentwhite, r)
    ensures s.running in s.heap && s.heap[s.running].Thread?
  {
    hide RootListOk, StringsOk, UpvalsOk, MarkInv, SweptRoots, SweptStrings, AliveClosed;
    assert r in s.Roots();
  }

  lemma SlotAlive(s: State, v: Value)
    requires Inv(s) && s.running in s.heap && s.heap[s.running].Thread? && v in s.heap[s.running].stack
    ensures AliveValue(s, v)
  {
    RootAlive(s, s.running);
    InvLive(s);
    hide Inv, Live;
    if v.Obj? {
      assert v.ref in Edges(s.heap, s.running);
      EdgeAlive(s, s.running, v.ref);
    }
  }

  lemma RegStack(s: State, stack: seq<Value>)
    requires Inv(s) && s.running in s.heap && s.heap[s.running].Thread? && |stack| >= |s.heap[s.running].stack|
    requires forall i :: 0 <= i < |stack| ==>
               AliveValue(s, stack[i]) || (i < |s.heap[s.running].stack| && stack[i] == s.heap[s.running].stack[i])
    ensures StackOk(s, s.running, s.heap[s.running].gt, stack)
  {
    hide RootListOk, StringsOk, MarkInv, SweptRoots, SweptStrings, Live;
    assert ThreadOk(s.heap, s.running);
  }

  // ---------- The individual stores ----------

  /** A register holding an object proves that object alive. */
  ghost predicate Holds(s: State, o: Ref, v: Value) {
    Inv(s) && Alive(s.heap, s.marked, s.currentwhite, o) && AliveValue(s, v)
  }

  lemma TableStoreOk(s: State, t: Ref, slots: seq<Value>, v: Value)
    requires Holds(s, t, v) && s.heap[t].Table?
    requires forall x :: x in slots ==> x in s.heap[t].slots || x == v
    ensures StoreOk(s, t, s.heap[t].(slots := slots), Refs(v))
  {
    hide Inv;
  }

  /** `lua_setmetatable` on a table or a userdata */
  function WithMetatable(o: Object, mt: Option<Ref>): Object {
    match o
    case Table(_, slots) => Table(mt, slots)
    case Udata(_, env) => Udata(mt, env)
    case _ => o
  }

  /** `lua_setfenv` on a function, a userdata or a thread */
  function WithEnv(o: Object, env: Ref): Object {
    match o
    case Udata(mt, _) => Udata(mt, env)
    case CClosure(_, vs) => CClosure(env, vs)
    case LClosure(_, p, us) => LClosure(env, p, us)
    case Thread(_, stack, us) => Thread(Obj(env), stack, us)
    case _ => o
  }

  lemma MetatableStoreOk(s: State, o: Ref, v: Value)
    requires Holds(s, o, v) && (s.heap[o].Table? || s.heap[o].Udata?)
    ensures StoreOk(s, o, WithMetatable(s.heap[o], if v.Obj? then Some(v.ref) else None), Refs(v))
  {
    hide Inv;
  }

  lemma EnvStoreOk(s: State, o: Ref, v: Value)
    requires Holds(s, o, v) && v.Obj? && (s.heap[o].Udata? || s.heap[o].CClosure? || s.heap[o].LClosure?)
    ensures StoreOk(s, o, WithEnv(s.heap[o], v.ref), Refs(v))
  {
    hide Inv;
  }

  /** A thread is never black while marking. */
  lemma ThreadNotBlack(s: State, t: Ref)
    requires Inv(s) && s.phase.Propagate? && t in s.heap && s.heap[t].Thread?
    ensures t in s.marked && !s.marked[t].Black?
  {
    hide Structure, Live, Settled, HeapClosed, Edges;
    MarkingFacts(s);
    UvheadIsOpenUps(s);
    ThreadPending(s, t);
    GrayIsMarked(s.heap, s.marked, s.currentwhite, s.gray, s.grayagain, Pending(s));
  }

  /** The barrier behind a store into a thread finds nothing to do while marking. */
  lemma ThreadStored(s: State, t: Ref, stored: set<Ref>)
    requires Inv(s) && s.freeing == {} && t in s.heap && s.heap[t].Thread? && stored <= s.heap.Keys
    ensures Stored(s, t, stored) && s.marked.Keys == s.heap.Keys
  {
    InvLive(s);
    assert s.marked.Keys == s.heap.Keys by { hide RootListOk, StringsOk, UpvalsOk, Live; }
    if s.phase.Propagate? {
      ThreadNotBlack(s, t);
      hide Structure, Live;
      UvheadIsOpenUps(s);
      MarkingFacts(s);
      hide MarkInv;
      MarkWeaken(s.heap, s.marked, s.currentwhite, s.gray, s.grayagain, Pending(s), Pending(s) + {t});
    }
  }

  lemma ThreadEnvOk(s: State, t: Ref, v: Value)
    requires Holds(s, t, v) && s.heap[t].Thread?
    ensures StackOk(s, t, v, s.heap[t].stack) && Refs(v) <= s.heap.Keys
  {
    CellsInside(s, t);
    hide Inv;
  }

  lemma ThreadEnvInv(s: State, t: Ref, v: Value)
    requires Holds(s, t, v) && s.freeing == {} && t in s.heap && s.heap[t].Thread?
    ensures var s' := StackObj(s, t, v, s.heap[t].stack);
            Inv(s') && Stored(s', t, Refs(v)) && s'.marked.Keys == s'.heap.Keys
  {
    ThreadEnvOk(s, t, v);
    hide Inv, Stored, StackOk, Alive, AliveValue;
    StackInv(s, t, v, s.heap[t].stack);
    ThreadStored(StackObj(s, t, v, s.heap[t].stack), t, Refs(v));
  }

  /** A slot of a thread's stack, or the one behind its top, gets a live value. */
  lemma SlotStackOk(s: State, t: Ref, i: nat, v: Value)
    requires Inv(s) && AliveValue(s, v) && t in s.heap && s.heap[t].Thread? && i <= |s.heap[t].stack|
    ensures StackOk(s, t, s.heap[t].gt, PutAt(s.heap[t].stack, i, v))
  {
    CellsInside(s, t);
    hide Inv;
  }

  lemma CellsInside(s: State, t: Ref)
    requires Inv(s) && t in s.heap && s.heap[t].Thread?
    ensures forall u :: u in s.heap[t].openupval ==>
        u in s.heap && s.heap[u].OpenUp? && s.heap[u].level < |s.heap[t].stack|
  {
    hide Live, RootListOk, StringsOk, MarkInv, SweptRoots, SweptStrings, NoDup, Decreasing;
    assert ThreadOk(s.heap, t);
  }

  function PutAt(stack: seq<Value>, i: nat, v: Value): (r: seq<Value>)
    requires i <= |stack|
    ensures |r| >= |stack| && i < |r| && r[i] == v && forall j :: 0 <= j < |stack| && j != i ==> r[j] == stack[j]
  {
    if i < |stack| then stack[i := v] else stack + [v]
  }

  /** What a path of references leads to is live. */
  lemma PathAlive(s: State, path: seq<Ref>)
    requires Inv(s) && IsPath(s.heap, s.Roots(), path)
    ensures Alive(s.heap, s.marked, s.currentwhite, path[|path| - 1])
    ensures Reachable(s.heap, s.Roots(), path[|path| - 1])
  {
    InvLive(s);
    PathReachable(s.heap, s.Roots(), path);
    hide Inv, Live, Edges;
    ReachableAlive(s);
  }

  /** The table of globals of the running thread is live. */
  lemma GlobalsAlive(s: State)
    requires Inv(s) && s.running in s.heap && s.heap[s.running].Thread? && s.heap[s.running].gt.Obj?
    ensures Alive(s.heap, s.marked, s.currentwhite, s.heap[s.running].gt.ref)
  {
    RootAlive(s, s.running);
    InvLive(s);
    assert s.heap[s.running].gt.ref in Edges(s.heap, s.running);
    hide Inv, Edges;
    EdgeAlive(s, s.running, s.heap[s.running].gt.ref);
  }

  /** A new upvalue for a closure that is being made. */
  lemma AddUpvalOk(s: State, o: Ref, u: Ref)
    requires Holds(s, o, Obj(u)) && s.heap[o].LClosure? && s.heap[u].ClosedUp?
    ensures StoreOk(s, o, s.heap[o].(upvals := s.heap[o].upvals + [u]), Refs(Obj(u)))
  {
    hide Inv;
  }

  lemma WhiteAlive(s: State, o: Ref)
    requires o in s.heap && o in s.marked && s.marked[o] == White(s.currentwhite)
    ensures Alive(s.heap, s.marked, s.currentwhite, o) && AliveValue(s, Obj(o))
  {
  }

  lemma NewUpvalOk(s: State, u: Ref)
    requires u !in s.heap
    ensures NewOk(s, u, ClosedUp(Prim(0)))
  {
  }

  lemma UpvalueStoreOk(s: State, o: Ref, v: Value)
    requires Holds(s, o, v) && s.heap[o].ClosedUp?
    ensures StoreOk(s, o, ClosedUp(v), Refs(v))
  {
    hide Inv;
  }

  lemma CUpvalueStoreOk(s: State, o: Ref, j: nat, v: Value)
    requires Holds(s, o, v) && s.heap[o].CClosure? && j < |s.heap[o].values|
    ensures StoreOk(s, o, s.heap[o].(values := s.heap[o].values[j := v]), Refs(v))
  {
    hide Inv;
    var vs := s.heap[o].values;
    assert forall x :: x in vs[j := v] ==> x in vs || x == v;
  }

  lemma ConstantStoreOk(s: State, o: Ref, v: Value)
    requires Holds(s, o, v) && s.heap[o].Proto?
    ensures StoreOk(s, o, s.heap[o].(k := s.heap[o].k + [v]), Refs(v))
  {
    hide Inv;
  }

  lemma ProtoStoreOk(s: State, o: Ref, v: Value)
    requires Holds(s, o, v) && s.heap[o].Proto? && v.Obj?
    ensures StoreOk(s, o, s.heap[o].(protos := s.heap[o].protos + [v.ref]), Refs(v))
  {
    hide Inv;
  }

  /** The values of registers are live. */
  lemma RegsHold(s: State, va: Value, vb: Value)
    requires Inv(s) && s.running in s.heap && s.heap[s.running].Thread?
    requires va in s.heap[s.running].stack && vb in s.heap[s.running].stack
    ensures AliveValue(s, va) && AliveValue(s, vb)
    ensures va.Obj? ==> Holds(s, va.ref, vb)
  {
    hide Inv;
    SlotAlive(s, va);
    SlotAlive(s, vb);
  }

  lemma UpvalOfClosure(s: State, f: Ref, j: nat)
    requires Inv(s) && Alive(s.heap, s.marked, s.currentwhite, f) && s.heap[f].LClosure? && j < |s.heap[f].upvals|
    ensures var u := s.heap[f].upvals[j];
            Alive(s.heap, s.marked, s.currentwhite, u) && IsUpval(s.heap[u]) &&
                AliveValue(s, UpvalValue(s.heap, s.heap[u]))
  {
    InvLive(s);
    var u := s.heap[f].upvals[j];
    assert u in s.heap[f].upvals;
    ClosureEdges(s.heap, f, u);
    hide Inv;
    EdgeAlive(s, f, u);
    hide *;
    UpvalOfCell(s, u);
  }

  lemma UpvalOfCell(s: State, u: Ref)
    requires Inv(s) && Alive(s.heap, s.marked, s.currentwhite, u) && IsUpval(s.heap[u])
    ensures AliveValue(s, UpvalValue(s.heap, s.heap[u]))
  {
    InvLive(s);
    hide Inv, Edges;
    var v := UpvalValue(s.heap, s.heap[u]);
    if v.Obj? {
      CellEdge(s.heap, u);
      EdgeAlive(s, u, v.ref);
    }
  }

  lemma CellEdge(h: Heap, u: Ref)
    requires u in h && IsUpval(h[u]) && UpvalValue(h, h[u]).Obj?
    ensures UpvalValue(h, h[u]).ref in Edges(h, u)
  {
    assert UpvalValue(h, h[u]).ref in ValueRefs([UpvalValue(h, h[u])]);
  }

  /** An open upvalue points into the stack of an existing thread. */
  lemma CellSlot(s: State, u: Ref)
    requires Inv(s) && u in s.heap && s.heap[u].OpenUp?
    ensures var t := s.heap[u].thread;
            t in s.heap && s.heap[t].Thread? && s.heap[u].level < |s.heap[t].stack| &&
            UpvalValue(s.heap, s.heap[u]) == s.heap[t].stack[s.heap[u].level]
  {
    hide Live, RootListOk, StringsOk, MarkInv, SweptRoots, SweptStrings;
    assert CellOk(s.heap, u) && ThreadOk(s.heap, s.heap[u].thread);
  }

  lemma SlotWriteOk(s: State, u: Ref, v: Value)
    requires Inv(s) && u in s.heap && s.heap[u].OpenUp? && AliveValue(s, v)
    requires s.heap[u].thread in s.heap && s.heap[s.heap[u].thread].Thread?
    requires s.heap[u].level < |s.heap[s.heap[u].thread].stack|
    ensures StackOk(s, s.heap[u].thread, s.heap[s.heap[u].thread].gt,
        s.heap[s.heap[u].thread].stack[s.heap[u].level := v])
  {
    hide Live, RootListOk, StringsOk, MarkInv, SweptRoots, SweptStrings;
    assert ThreadOk(s.heap, s.heap[u].thread);
  }

  lemma HoldsAlive(s: State, o: Ref, v: Value)
    requires Holds(s, o, v)
    ensures Alive(s.heap, s.marked, s.currentwhite, o)
  {
  }

  lemma HoldsIntro(s: State, o: Ref, v: Value)
    requires Inv(s) && Alive(s.heap, s.marked, s.currentwhite, o) && AliveValue(s, v)
    ensures Holds(s, o, v)
  {
  }

  lemma SlotOfTable(s: State, t: Ref, v: Value, x: Value)
    requires Holds(s, t, v) && s.heap[t].Table? && x in s.heap[t].slots
    ensures AliveValue(s, x)
  {
    InvLive(s);
    if x.Obj? {
      assert x.ref in Edges(s.heap, t);
      hide Inv;
      EdgeAlive(s, t, x.ref);
    }
  }

  // ---------- Building new objects from registers ----------

  ghost predicate AllAlive(s: State, vs: seq<Value>) {
    forall v :: v in vs ==> AliveValue(s, v)
  }

  lemma NewTableOk(s: State, o: Ref)
    requires o !in s.heap
    ensures NewOk(s, o, Table(None, []))
  {
  }

  lemma NewProtoOk(s: State, o: Ref)
    requires o !in s.heap
    ensures NewOk(s, o, Proto([], []))
  {
  }

  lemma NewUdataOk(s: State, o: Ref, env: Value)
    requires o !in s.heap && AliveValue(s, env) && env.Obj?
    ensures NewOk(s, o, Udata(None, env.ref))
  {
  }

  /** A new thread shares the table of globals of its creator. */
  lemma NewThreadOk(s: State, o: Ref)
    requires Inv(s) && o !in s.heap && s.running in s.heap && s.heap[s.running].Thread?
    ensures NewOk(s, o, Thread(s.heap[s.running].gt, [Prim(0)], []))
  {
    RootAlive(s, s.running);
    InvLive(s);
    var obj := Thread(s.heap[s.running].gt, [Prim(0)], []);
    forall c | c in Edges(s.heap[o := obj], o) ensures Alive(s.heap, s.marked, s.currentwhite, c) {
      assert c in Edges(s.heap, s.running);
      hide Inv, Edges;
      EdgeAlive(s, s.running, c);
    }
  }

  lemma NewCClosureOk(s: State, o: Ref, env: Value, vs: seq<Value>)
    requires o !in s.heap && env.Obj? && AliveValue(s, env) && AllAlive(s, vs)
    ensures NewOk(s, o, CClosure(env.ref, vs))
  {
  }

  lemma NewLClosureOk(s: State, o: Ref, env: Ref, p: Ref, us: seq<Ref>)
    requires o !in s.heap
    requires Alive(s.heap, s.marked, s.currentwhite, env) && Alive(s.heap, s.marked, s.currentwhite, p)
    requires forall u :: u in us ==> Alive(s.heap, s.marked, s.currentwhite, u) && IsUpval(s.heap[u])
    ensures NewOk(s, o, LClosure(env, p, us))
  {
  }

  lemma RegsAlive(s: State, vs: seq<Value>)
    requires Inv(s) && s.running in s.heap && s.heap[s.running].Thread?
    requires forall v :: v in vs ==> v in s.heap[s.running].stack
    ensures AllAlive(s, vs)
  {
    hide Inv, AliveValue;
    forall v | v in vs ensures AliveValue(s, v) {
      SlotAlive(s, v);
    }
  }

  lemma MainInRoot(s: State)
    requires Inv(s) && s.freeing == {}
    ensures s.mainthread in s.rootgc
  {
    hide Live, StringsOk, UpvalsOk, MarkInv, SweptRoots, SweptStrings, NoDup;
  }

  /** A new object is live, and so is everything that was live before. */
  lemma NewAliveValue(s: State, o: Ref, obj: Object, k: nat)
    requires k <= |s.rootgc| && o !in s.heap
    ensures AliveValue(NewObj(s, o, obj, k), Obj(o))
  {
  }

  lemma StringTable(s: State, hash: nat, text: string)
    requires Inv(s)
    ensures |s.strt| > 0 && Chain(hash, |s.strt|) < |s.strt| && s.marked.Keys == s.heap.Keys
    ensures forall o :: o in s.strt[Chain(hash, |s.strt|)] ==> o in s.heap && s.heap[o].Str?
  {
    hide Live, RootListOk, UpvalsOk, MarkInv, SweptRoots, SweptStrings, NoDup, Interned, StringsInChains;
    ChainSmall(hash, |s.strt|);
  }

  lemma ChainSmall(hash: nat, size: nat)
    requires size > 0
    ensures Chain(hash, size) < size
  {
  }

  lemma NoSuchString(s: State, hash: nat, text: string)
    requires Inv(s) && |s.strt| > 0 && Chain(hash, |s.strt|) < |s.strt|
    requires forall j :: 0 <= j < |s.strt[Chain(hash, |s.strt|)]| ==>
               s.strt[Chain(hash, |s.strt|)][j] in s.heap && s.heap[s.strt[Chain(hash, |s.strt|)][j]] != Str(hash, text)
    ensures forall x :: x in s.heap ==> s.heap[x] != Str(hash, text)
  {
    hide Live, RootListOk, UpvalsOk, MarkInv, SweptRoots, SweptStrings, NoDup, Interned, ChainsHoldStrings, Chain;
    forall x | x in s.heap ensures s.heap[x] != Str(hash, text) {
      assert s.heap[x].Str? && s.heap[x].hash == hash ==> x in s.strt[Chain(hash, |s.strt|)];
    }
  }

  lemma ReviveString(s: State, o: Ref)
    requires Inv(s) && s.freeing == {} && o in s.heap && o in s.marked && s.heap[o].Str? &&
        IsDead(s.marked, s.currentwhite, o)
    ensures Inv(Whiten(s, o))
  {
    hide Inv;
    ReviveInv(s, o);
  }

  lemma StringAlive(s: State, o: Ref)
    requires o in s.heap && o in s.marked && !IsDead(s.marked, s.currentwhite, o)
    ensures AliveValue(s, Obj(o))
  {
  }

  // ---------- Capturing stack slots ----------

  /** A dead open upvalue of the running thread may be brought back: its slot holds a live value. */
  lemma ReviveCell(s: State, u: Ref)
    requires Inv(s) && s.freeing == {} && s.running in s.heap && s.heap[s.running].Thread?
    requires u in s.heap[s.running].openupval && u in s.marked && IsDead(s.marked, s.currentwhite, u)
    ensures Inv(Whiten(s, u))
  {
    RunningCell(s, u);
    var v := UpvalValue(s.heap, s.heap[u]);
    SlotAlive(s, v);
    assert forall c :: c in Edges(s.heap, u) ==> v == Obj(c);
    hide Inv, Edges;
    ReviveInv(s, u);
  }

  lemma RunningCell(s: State, u: Ref)
    requires Inv(s) && s.running in s.heap && s.heap[s.running].Thread? && u in s.heap[s.running].openupval
    ensures u in s.heap && s.heap[u].OpenUp? && s.heap[u].thread == s.running && u in s.marked
    ensures s.heap[u].level < |s.heap[s.running].stack|
    ensures UpvalValue(s.heap, s.heap[u]) in s.heap[s.running].stack
  {
    hide Live, RootListOk, StringsOk, MarkInv, SweptRoots, SweptStrings, NoDup;
    assert ThreadOk(s.heap, s.running);
  }

  lemma CellsSorted(s: State)
    requires Inv(s) && s.running in s.heap && s.heap[s.running].Thread?
    ensures forall u :: u in s.heap[s.running].openupval ==> u in s.heap && s.heap[u].OpenUp?
    ensures Decreasing(s.heap, s.heap[s.running].openupval)
    ensures s.marked.Keys == s.heap.Keys
  {
    hide Live, RootListOk, StringsOk, MarkInv, SweptRoots, SweptStrings, NoDup;
    assert ThreadOk(s.heap, s.running);
  }

  lemma CellFitsHere(h: Heap, t: Ref, level: nat, j: nat)
    requires t in h && h[t].Thread? && level < |h[t].stack| && j <= |h[t].openupval|
    requires forall u :: u in h[t].openupval ==> u in h && h[u].OpenUp?
    requires Decreasing(h, h[t].openupval)
    requires forall k :: 0 <= k < j ==> h[h[t].openupval[k]].level > level
    requires j < |h[t].openupval| ==> h[h[t].openupval[j]].level < level
    ensures CellFits(h, t, level, j)
  {
    var us := h[t].openupval;
    forall k | 0 <= k < |us| ensures us[k] in h && h[us[k]].OpenUp? &&
      (if k < j then h[us[k]].level > level else h[us[k]].level < level)
    {
      assert us[k] in us;
      if k > j {
        assert h[us[j]].level > h[us[k]].level;
      }
    }
  }

  /** What stays true of every live object while cells are added or revived. */
  ghost predicate KeepsCells(s: State, s': State) {
    && SameRoots(s, s') && s'.currentwhite == s.currentwhite
    && (forall x :: Alive(s.heap, s.marked, s.currentwhite, x) ==> Alive(s'.heap, s'.marked, s.currentwhite, x))
    && (forall x :: x in s.heap ==> x in s'.heap && (if x == s.running && s.heap[x].Thread? then
          s'.heap[x].Thread? && s'.heap[x].gt == s.heap[x].gt && s'.heap[x].stack == s.heap[x].stack
          else s'.heap[x] == s.heap[x]))
  }

  lemma KeepsCellsTrans(s: State, t: State, u: State)
    requires KeepsCells(s, t) && KeepsCells(t, u)
    ensures KeepsCells(s, u)
  {
  }

  lemma FoundCell(s: State, s': State, u: Ref)
    requires u in s.heap && u in s.marked
    requires s' == (if IsDead(s.marked, s.currentwhite, u) then Whiten(s, u) else s)
    ensures KeepsCells(s, s') && Alive(s'.heap, s'.marked, s.currentwhite, u)
  {
  }

  lemma AddedCell(s: State, u: Ref, level: nat, j: nat)
    requires s.running in s.heap && s.heap[s.running].Thread? && j <= |s.heap[s.running].openupval| && u !in s.heap
    ensures var s' := NewCell(s, u, s.running, level, j);
            KeepsCells(s, s') && Alive(s'.heap, s'.marked, s.currentwhite, u) &&
            u in s'.heap[s.running].openupval
  {
    assert NewCell(s, u, s.running, level, j).heap[s.running].openupval[j] == u;
  }

  /** If the search ends at `j`, no cell for the slot exists. */
  lemma NoCell(s: State, level: nat, j: nat)
    requires Inv(s) && s.running in s.heap && s.heap[s.running].Thread? && CellFits(s.heap, s.running, level, j)
    ensures forall x :: x in s.heap ==> s.heap[x] != OpenUp(s.running, level)
  {
    hide Live, RootListOk, StringsOk, MarkInv, SweptRoots, SweptStrings, NoDup, ThreadOk;
    forall x | x in s.heap ensures s.heap[x] != OpenUp(s.running, level) {
      if s.heap[x].OpenUp? {
        assert CellOk(s.heap, x);
      }
    }
  }

  // ---------- Closures ----------

  /** How OP_CLOSURE fills one upvalue: OP_GETUPVAL or OP_MOVE. */
  datatype Capture = FromUp(index: nat) | FromReg(level: nat)

  predicate CapturesOk(cs: seq<Capture>, upvals: nat, regs: nat) {
    forall c :: c in cs ==> match c case FromUp(j) => j < upvals case FromReg(l) => l < regs
  }

  /** `u` is the live cell that the capture `c` names. */
  ghost predicate Captured(s: State, upvals: seq<Ref>, c: Capture, u: Ref) {
    && Alive(s.heap, s.marked, s.currentwhite, u) && IsUpval(s.heap[u])
    && match c
       case FromUp(j) => j < |upvals| && u == upvals[j]
       case FromReg(l) => s.heap[u] == OpenUp(s.running, l)
  }

  lemma KeepsCellsRefl(s: State)
    ensures KeepsCells(s, s)
  {
  }

  lemma KeepsCellsOf(s: State, s1: State, f: Ref)
    requires KeepsCells(s, s1) && f in s.heap && s.heap[f].LClosure? && Alive(s.heap, s.marked, s.currentwhite, f)
    requires s.running in s.heap && s.heap[s.running].Thread?
    ensures f in s1.heap && s1.heap[f] == s.heap[f] && Alive(s1.heap, s1.marked, s1.currentwhite, f)
    ensures s1.running == s.running && s1.running in s1.heap && s1.heap[s1.running].Thread?
    ensures s1.heap[s1.running].stack == s.heap[s.running].stack
  {
  }

  lemma KeepsCellsObj(s: State, s1: State)
    requires KeepsCells(s, s1) && s.running in s.heap && s.heap[s.running].Thread?
    ensures forall x :: x in s.heap ==> x in s1.heap && (x != s.running ==> s1.heap[x] == s.heap[x])
    ensures s1.running == s.running && s1.heap[s.running].Thread? && s1.heap[s.running].stack == s.heap[s.running].stack
  {
  }

  lemma CapturedUp(s: State, f: Ref, j: nat)
    requires Inv(s) && Alive(s.heap, s.marked, s.currentwhite, f) && s.heap[f].LClosure? && j < |s.heap[f].upvals|
    ensures Captured(s, s.heap[f].upvals, FromUp(j), s.heap[f].upvals[j])
    ensures KeepsCells(s, s)
  {
    hide Inv, AliveValue;
    UpvalOfClosure(s, f, j);
  }

  lemma CapturedReg(s: State, s': State, upvals: seq<Ref>, level: nat, u: Ref)
    requires KeepsCells(s, s') && u in s'.heap && s'.heap[u] == OpenUp(s'.running, level)
    requires Alive(s'.heap, s'.marked, s'.currentwhite, u)
    ensures Captured(s', upvals, FromReg(level), u)
  {
  }

  lemma CaptureIn(cs: seq<Capture>, upvals: nat, regs: nat, i: nat)
    requires CapturesOk(cs, upvals, regs) && i < |cs|
    ensures CapturesOk([cs[i]], upvals, regs)
  {
    assert cs[i] in cs;
  }

  /** The first captures of a new closure are filled in. */
  ghost predicate AllCaptured(s: State, upvals: seq<Ref>, cs: seq<Capture>, us: seq<Ref>) {
    |us| <= |cs| && forall k :: 0 <= k < |us| ==> Captured(s, upvals, cs[k], us[k])
  }

  lemma CapturedOne(s: State, upvals: seq<Ref>, cs: seq<Capture>, us: seq<Ref>)
    requires AllCaptured(s, upvals, cs, us) && |us| == |cs| == 1 && cs[0].FromReg?
    ensures us[0] in s.heap && s.heap[us[0]] == OpenUp(s.running, cs[0].level)
  {
    assert Captured(s, upvals, cs[0], us[0]);
  }

  lemma CapturedNext(s: State, s1: State, s': State, upvals: seq<Ref>, cs: seq<Capture>, us: seq<Ref>, u: Ref)
    requires KeepsCells(s, s1) && KeepsCells(s1, s') && AllCaptured(s1, upvals, cs, us)
    requires |us| < |cs| && Captured(s', upvals, cs[|us|], u)
    ensures KeepsCells(s, s') && AllCaptured(s', upvals, cs, us + [u])
  {
    KeepsCellsTrans(s, s1, s');
    forall k | 0 <= k < |us| ensures Captured(s', upvals, cs[k], us[k]) {
      assert Captured(s1, upvals, cs[k], us[k]);
    }
  }

  /** The environment and the inner prototypes of a live closure are live. */
  lemma InnerProto(s: State, f: Ref, k: nat)
    requires Inv(s) && Alive(s.heap, s.marked, s.currentwhite, f) && s.heap[f].LClosure?
    requires var p := s.heap[f].proto; p in s.heap && s.heap[p].Proto? && k < |s.heap[p].protos|
    ensures Alive(s.heap, s.marked, s.currentwhite, s.heap[f].env)
    ensures Alive(s.heap, s.marked, s.currentwhite, s.heap[s.heap[f].proto].protos[k])
  {
    InvLive(s);
    var p := s.heap[f].proto;
    assert p in Edges(s.heap, f) && s.heap[f].env in Edges(s.heap, f);
    assert s.heap[p].protos[k] in Edges(s.heap, p);
    hide Inv, Edges;
    EdgeAlive(s, f, s.heap[f].env);
    EdgeAlive(s, f, p);
    EdgeAlive(s, p, s.heap[p].protos[k]);
  }

  lemma InnerProtoKept(s: State, s1: State, env: Ref, p: Ref)
    requires KeepsCells(s, s1) && Alive(s.heap, s.marked, s.currentwhite, env) &&
        Alive(s.heap, s.marked, s.currentwhite, p)
    ensures Alive(s1.heap, s1.marked, s1.currentwhite, env) && Alive(s1.heap, s1.marked, s1.currentwhite, p)
  {
  }

  lemma NewLClosureCaptured(s: State, o: Ref, env: Ref, p: Ref, upvals: seq<Ref>, cs: seq<Capture>, us: seq<Ref>)
    requires o !in s.heap && |us| == |cs|
    requires Alive(s.heap, s.marked, s.currentwhite, env) && Alive(s.heap, s.marked, s.currentwhite, p)
    requires AllCaptured(s, upvals, cs, us)
    ensures NewOk(s, o, LClosure(env, p, us))
  {
    forall u | u in us ensures Alive(s.heap, s.marked, s.currentwhite, u) && u in s.heap && IsUpval(s.heap[u]) {
      var i :| 0 <= i < |us| && us[i] == u;
      assert Captured(s, upvals, cs[i], us[i]);
    }
    NewLClosureOk(s, o, env, p, us);
  }

  /** The captured cells are live once the closure is in a register. */
  lemma CapturedAfter(s1: State, s3: State, o: Ref, upvals: seq<Ref>, cs: seq<Capture>)
    requires Inv(s3) && s3.running == s1.running && s3.running in s3.heap && s3.heap[s3.running].Thread?
    requires s1.running in s1.heap && s1.heap[s1.running].Thread?
    requires Obj(o) in s3.heap[s3.running].stack && o in s3.heap && s3.heap[o].LClosure? && |s3.heap[o].upvals| == |cs|
    requires forall x :: x in s1.heap && x != s1.running ==> x in s3.heap && s3.heap[x] == s1.heap[x]
    requires AllCaptured(s1, upvals, cs, s3.heap[o].upvals)
    ensures AllCaptured(s3, upvals, cs, s3.heap[o].upvals)
  {
    hide Inv;
    SlotAlive(s3, Obj(o));
    forall i | 0 <= i < |cs| ensures Captured(s3, upvals, cs[i], s3.heap[o].upvals[i]) {
      assert Captured(s1, upvals, cs[i], s3.heap[o].upvals[i]);
      UpvalOfClosure(s3, o, i);
    }
  }

  // ---------- Closing upvalues ----------

  /** Where `luaF_close` stands with one of the cells that were open in `s`. */
  ghost predicate ClosedSoFar(s: State, h: Heap, u: Ref, done: bool, level: nat) {
    && u in s.heap && s.heap[u].OpenUp?
    && if done then s.heap[u].level >= level && (u in h ==> h[u] == ClosedUp(UpvalValue(s.heap, s.heap[u])))
       else u in h && h[u] == s.heap[u]
  }

  /** The first `n` upvalues of the running thread have been dealt with, the others are as they were. */
  ghost predicate ClosedTo(s: State, h: Heap, level: nat, n: nat) {
    && s.running in s.heap && s.heap[s.running].Thread?
    && forall i :: 0 <= i < |s.heap[s.running].openupval| ==>
         ClosedSoFar(s, h, s.heap[s.running].openupval[i], i < n, level)
  }

  lemma NoneClosed(s: State, level: nat)
    requires Inv(s) && s.running in s.heap && s.heap[s.running].Thread?
    ensures ClosedTo(s, s.heap, level, 0)
  {
    hide Inv;
    CellsSorted(s);
  }

  lemma CellsBelow(s: State, h: Heap, level: nat, n: nat)
    requires s.running in s.heap && s.heap[s.running].Thread? && n <= |s.heap[s.running].openupval|
    requires forall u :: u in s.heap[s.running].openupval ==> u in s.heap && s.heap[u].OpenUp?
    requires Decreasing(s.heap, s.heap[s.running].openupval)
    requires n < |s.heap[s.running].openupval| ==> s.heap[s.heap[s.running].openupval[n]].level < level
    ensures forall i :: n <= i < |s.heap[s.running].openupval| ==> s.heap[s.heap[s.running].openupval[i]].level < level
  {
  }

  lemma CloseFreed(s: State, s1: State, s2: State, level: nat, n: nat)
    requires s.running in s.heap && s.heap[s.running].Thread? && n < |s.heap[s.running].openupval|
    requires NoDup(s.heap[s.running].openupval)
    requires ClosedTo(s, s1.heap, level, n)
    requires var u := s.heap[s.running].openupval[n];
             u in s.heap && s.heap[u].OpenUp? && s.heap[u].level >= level && u !in s2.heap &&
             forall x :: x in s1.heap && x != u && x != s.running ==> x in s2.heap && s2.heap[x] == s1.heap[x]
    requires s2.heap.Keys <= s1.heap.Keys
    ensures ClosedTo(s, s2.heap, level, n + 1)
  {
    forall i | 0 <= i < |s.heap[s.running].openupval|
      ensures ClosedSoFar(s, s2.heap, s.heap[s.running].openupval[i], i < n + 1, level)
    {
      assert ClosedSoFar(s, s1.heap, s.heap[s.running].openupval[i], i < n, level);
    }
  }

  lemma CloseMoved(s: State, s1: State, s2: State, level: nat, n: nat)
    requires s.running in s.heap && s.heap[s.running].Thread? && n < |s.heap[s.running].openupval|
    requires NoDup(s.heap[s.running].openupval)
    requires ClosedTo(s, s1.heap, level, n)
    requires s1.running == s.running && s.running in s1.heap && s1.heap[s.running].Thread?
    requires s1.heap[s.running].stack == s.heap[s.running].stack
    requires var u := s.heap[s.running].openupval[n];
             u in s.heap && s.heap[u].OpenUp? && s.heap[u].level >= level && u in s2.heap &&
             u in s1.heap && s1.heap[u].OpenUp? && s1.heap[u].thread == s.running &&
             s2.heap[u] == ClosedUp(UpvalValue(s1.heap, s1.heap[u])) &&
             forall x :: x in s1.heap && x != u && x != s.running ==> x in s2.heap && s2.heap[x] == s1.heap[x]
    requires s2.heap.Keys == s1.heap.Keys
    ensures ClosedTo(s, s2.heap, level, n + 1)
  {
    assert ClosedSoFar(s, s1.heap, s.heap[s.running].openupval[n], false, level);
    forall i | 0 <= i < |s.heap[s.running].openupval|
      ensures ClosedSoFar(s, s2.heap, s.heap[s.running].openupval[i], i < n + 1, level)
    {
      assert ClosedSoFar(s, s1.heap, s.heap[s.running].openupval[i], i < n, level);
    }
  }

  /** Two open upvalues never stand for the same stack slot. */
  lemma OneCellPerSlot(s: State, u: Ref, w: Ref)
    requires Inv(s) && u in s.heap && w in s.heap && s.heap[u].OpenUp? && s.heap[w] == s.heap[u]
    ensures u == w
  {
    hide Live, RootListOk, StringsOk, MarkInv, SweptRoots, SweptStrings, NoDup;
    assert CellOk(s.heap, u) && CellOk(s.heap, w) && ThreadOk(s.heap, s.heap[u].thread);
  }

  // ---------- The top of the stack, and the roots ----------

  /** The first `n` registers; registers that were not there hold nil. */
  function TopOf(regs: seq<Value>, n: nat): (r: seq<Value>)
    ensures |r| == n
    ensures forall i :: 0 <= i < n ==> r[i] == if i < |regs| then regs[i] else Prim(0)
  {
    if n <= |regs| then regs[..n] else regs + seq(n - |regs|, i => Prim(0))
  }

  lemma TopStackOk(s: State, n: nat)
    requires Inv(s) && s.running in s.heap && s.heap[s.running].Thread?
    requires forall u :: u in s.heap && s.heap[u].OpenUp? && s.heap[u].thread == s.running ==> s.heap[u].level < n
    ensures StackOk(s, s.running, s.heap[s.running].gt, TopOf(s.heap[s.running].stack, n))
  {
    hide Live, RootListOk, StringsOk, MarkInv, SweptRoots, SweptStrings;
    assert ThreadOk(s.heap, s.running);
  }

  lemma RunningInv(s: State, t: Ref)
    requires Inv(s) && Alive(s.heap, s.marked, s.currentwhite, t) && s.heap[t].Thread?
    ensures Inv(s.(running := t))
  {
    InvLive(s);
    assert forall r :: r in RefsOf(s.mt) ==> r in s.Roots();
    hide Inv, AliveClosed;
    SetRootsInv(s, s.(running := t));
  }

  lemma BasicMtInv(s: State, i: nat, v: Value)
    requires Inv(s) && i < |s.mt| && AliveValue(s, v) && s.running in s.heap && s.heap[s.running].Thread?
    ensures Inv(s.(mt := s.mt[i := if v.Obj? then Some(v.ref) else None]))
  {
    InvLive(s);
    var mt' := s.mt[i := if v.Obj? then Some(v.ref) else None];
    forall r | r in {s.running} + RefsOf(mt') ensures Alive(s.heap, s.marked, s.currentwhite, r) {
      if !(v.Obj? && r == v.ref) && r != s.running {
        var j :| 0 <= j < |mt'| && mt'[j] == Some(r);
        assert s.mt[j] == Some(r);
        assert r in RefsOf(s.mt);
      }
      assert (v.Obj? && r == v.ref) || r in s.Roots();
    }
    hide Inv, AliveClosed;
    SetRootsInv(s, s.(mt := mt'));
  }

  // ---------- The first state ----------

  /** The state `lua_newstate` leaves: the main thread, its table of globals, and the registry. */
  function InitState(): State {
    State(map[0 := Thread(Obj(1), [Prim(0)], []), 1 := Table(None, []), 2 := Table(None, [])],
          map[0 := White(false), 1 := White(false), 2 := White(false)], {0}, false, Pause,
          [], [], [2, 1, 0], 0, seq(MINSTRTABSIZE, i => []), 0, [], 0, 0, 2, seq(NUM_TAGS, i => None), {})
  }

  const MINSTRTABSIZE := 32
  const NUM_TAGS := 9

  lemma InitRoots()
    ensures var s := InitState(); s.Roots() == {0, 2} && RootListOk(s.heap, s.rootgc, {})
    ensures forall o :: o in InitState().heap <==> o in {0, 1, 2}
  {
    var s := InitState();
    assert s.heap.Keys == {0, 1, 2};
    assert forall o :: o in s.rootgc <==> o in {0, 1, 2};
    assert RefsOf(s.mt) == {};
  }

  lemma InitAlive()
    ensures var s := InitState(); AliveClosed(s.heap, s.marked, false)
  {
    var s := InitState();
    assert ValueRefs([Obj(1)]) == [1] && ValueRefs([Prim(0)]) == [];
    forall o, c | o in s.heap && c in Edges(s.heap, o) ensures c == 1 {
    }
  }

  lemma NoStrings(h: Heap, strt: seq<seq<Ref>>)
    requires |strt| > 0 && (forall i :: 0 <= i < |strt| ==> strt[i] == []) && (forall o :: o in h ==> !h[o].Str?)
    ensures StringsOk(h, strt)
  {
    hide Chain;
  }

  lemma NoCells(h: Heap)
    requires forall o :: o in h ==> !h[o].OpenUp? && (h[o].Thread? ==> h[o].openupval == [])
    ensures UpvalsOk(h, [])
  {
  }

  lemma InitInv()
    ensures Inv(InitState()) && InitState().freeing == {}
  {
    var s := InitState();
    hide StringsOk, UpvalsOk, RootListOk, AliveClosed;
    InitRoots();
    NoStrings(s.heap, s.strt);
    NoCells(s.heap);
    InitAlive();
    assert s.marked.Keys == s.heap.Keys;
    assert Structure(s) && Live(s);
  }

  /** `luaS_fix` */
  lemma FixInv(s: State, o: Ref)
    requires Inv(s) && o in s.heap && s.heap[o].Str?
    ensures Inv(s.(fixed := s.fixed + {o}))
  {
    hide RootListOk, StringsOk, UpvalsOk, MarkInv, SweptRoots, SweptStrings, AliveClosed;
    assert s.(fixed := s.fixed + {o}).Roots() == s.Roots();
  }

  lemma PrimAlive(s: State, n: int)
    ensures AliveValue(s, Prim(n))
  {
  }

  lemma AllWithin(s: State)
    requires Inv(s)
    ensures Within(s, s.heap.Keys)
  {
    InvLive(s);
    hide AliveClosed, RootListOk, StringsOk, UpvalsOk, SweptRoots, SweptStrings, GrayOk, Settled, Edges;
    LiveFacts(s);
    if s.phase.Pause? {
      CleanFacts(s);
    }
  }

  lemma SteppedKeeps(s: State, s': State)
    requires Stepped(s, s')
    ensures Keeps(s, s')
  {
    hide Keeps;
  }

  lemma MainThread(s: State)
    requires Inv(s)
    ensures s.mainthread in s.Roots() && s.mainthread in s.heap && s.heap[s.mainthread].Thread?
  {
    hide RootListOk, StringsOk, UpvalsOk, Live;
  }

  /** After `luaF_close` the thread has no open upvalue left at or above the level. */
  lemma NoCellsAbove(s: State, s': State, level: nat, n: nat)
    requires Inv(s') && s'.running == s.running && s.running in s.heap && s.heap[s.running].Thread?
    requires s'.running in s'.heap && s'.heap[s'.running].Thread? && n <= |s.heap[s.running].openupval|
    requires s'.heap[s.running].openupval == s.heap[s.running].openupval[n..]
    requires forall i :: n <= i < |s.heap[s.running].openupval| ==>
               var u := s.heap[s.running].openupval[i]; u in s'.heap && s'.heap[u].OpenUp? ==> s'.heap[u].level < level
    ensures forall u :: u in s'.heap && s'.heap[u].OpenUp? && s'.heap[u].thread == s'.running ==>
        s'.heap[u].level < level
  {
    hide Live, RootListOk, StringsOk, MarkInv, SweptRoots, SweptStrings, NoDup, ThreadOk;
    forall u | u in s'.heap && s'.heap[u].OpenUp? && s'.heap[u].thread == s'.running ensures s'.heap[u].level < level {
      assert CellOk(s'.heap, u);
      var k :| 0 <= k < |s'.heap[s.running].openupval| && s'.heap[s.running].openupval[k] == u;
      assert s.heap[s.running].openupval[n + k] == u;
    }
  }
}
