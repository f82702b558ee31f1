/**
 The collector's state and the invariants it keeps: structure of the object lists, the tri-colour
 invariant while marking, and the meaning of the two whites while sweeping.
 */
module LuaInvariants {
  import opened Seqs
  import opened LuaHeap

  datatype State = State(
    heap: Heap,
    marked: Marks,
    fixed: set<Ref>,
    currentwhite: bool,
    phase: Phase,
    gray: seq<Ref>,
    grayagain: seq<Ref>,
    rootgc: seq<Ref>,
    sweepgc: nat,
    strt: seq<seq<Ref>>,
    sweepstrgc: nat,
    uvhead: seq<Ref>,
    mainthread: Ref,
    running: Ref,
    registry: Ref,
    mt: seq<Option<Ref>>,
    freeing: set<Ref>)      // unlinked from `rootgc`, about to be released
  {
    function Roots(): set<Ref> {
      {mainthread, running, registry} + RefsOf(mt)
    }
  }

  function RefsOf(mt: seq<Option<Ref>>): set<Ref> {
    set i | 0 <= i < |mt| && mt[i].Some? :: mt[i].value
  }

  // ---------- Structure: which list holds which object ----------

  ghost predicate RootListOk(h: Heap, rootgc: seq<Ref>, freeing: set<Ref>) {
    && NoDup(rootgc)
    && (forall o :: o in rootgc ==> o in h && InRoot(h[o]) && o !in freeing)
    && (forall o :: o in h && InRoot(h[o]) && o !in freeing ==> o in rootgc)
    && (forall o :: o in freeing ==> o in h && InRoot(h[o]))
  }

  /** `lmod(hash, size)` */
  function Chain(hash: nat, size: nat): nat
    requires size > 0
  {
    hash % size
  }

  /** No two strings are equal. */
  ghost predicate Interned(h: Heap) {
    forall a, b :: a in h && b in h && h[a].Str? && h[a] == h[b] ==> a == b
  }

  ghost predicate ChainsHoldStrings(h: Heap, strt: seq<seq<Ref>>)
    requires |strt| > 0
  {
    forall i, o :: 0 <= i < |strt| && o in strt[i] ==> o in h && h[o].Str? && Chain(h[o].hash, |strt|) == i
  }

  ghost predicate StringsInChains(h: Heap, strt: seq<seq<Ref>>)
    requires |strt| > 0
  {
    forall o :: o in h && h[o].Str? ==> Chain(h[o].hash, |strt|) < |strt| && o in strt[Chain(h[o].hash, |strt|)]
  }

  /** The string table: each string sits in the chain of its hash, once. */
  ghost predicate StringsOk(h: Heap, strt: seq<seq<Ref>>) {
    && |strt| > 0
    && ChainsHoldStrings(h, strt)
    && StringsInChains(h, strt)
    && (forall i :: 0 <= i < |strt| ==> NoDup(strt[i]))
    && Interned(h)
  }

  ghost predicate Decreasing(h: Heap, us: seq<Ref>)
    requires forall u :: u in us ==> u in h && h[u].OpenUp?
  {
    forall i, j :: 0 <= i < j < |us| ==> h[us[i]].level > h[us[j]].level
  }

  /** The open upvalues of one thread: exactly its cells, strictly decreasing in stack level. */
  ghost predicate ThreadOk(h: Heap, t: Ref)
    requires t in h && h[t].Thread?
  {
    && (forall u :: u in h[t].openupval ==>
         u in h && h[u].OpenUp? && h[u].thread == t && h[u].level < |h[t].stack|)
    && Decreasing(h, h[t].openupval)
  }

  /** An open upvalue is chained in the thread whose stack it points into. */
  ghost predicate CellOk(h: Heap, u: Ref)
    requires u in h && h[u].OpenUp?
  {
    h[u].thread in h && h[h[u].thread].Thread? && u in h[h[u].thread].openupval
  }

  ghost predicate UpvalsOk(h: Heap, uvhead: seq<Ref>) {
    && (forall t {:trigger ThreadOk(h, t)} :: t in h && h[t].Thread? ==> ThreadOk(h, t))
    && (forall u {:trigger CellOk(h, u)} :: u in h && h[u].OpenUp? ==> CellOk(h, u))
    && NoDup(uvhead)
    && (forall u :: u in uvhead ==> u in h && h[u].OpenUp?)
    && (forall u :: u in h && h[u].OpenUp? ==> u in uvhead)
  }

  ghost predicate Structure(s: State) {
    && s.marked.Keys == s.heap.Keys
    && s.mainthread in s.heap && s.heap[s.mainthread].Thread?
    && s.running in s.heap && s.heap[s.running].Thread?
    && s.mainthread in s.fixed
    && (forall o :: o in s.fixed ==> o in s.heap && (o == s.mainthread || s.heap[o].Str?))
    && RootListOk(s.heap, s.rootgc, s.freeing)
    && StringsOk(s.heap, s.strt)
    && UpvalsOk(s.heap, s.uvhead)
    && s.sweepgc <= |s.rootgc|
    && s.sweepstrgc <= |s.strt|
  }

  // ---------- Liveness: what the mutator may still hold ----------

  /** `isdead`: the object carries the white that is not current. */
  predicate IsDead(m: Marks, cw: bool, o: Ref)
    requires o in m
  {
    m[o] == White(!cw)
  }

  predicate Alive(h: Heap, m: Marks, cw: bool, o: Ref) {
    o in h && o in m && !IsDead(m, cw, o)
  }

  ghost function AliveSet(h: Heap, m: Marks, cw: bool): set<Ref> {
    set o | o in h && Alive(h, m, cw, o)
  }

  /** Objects that are not dead only lead to objects that are not dead. */
  ghost predicate AliveClosed(h: Heap, m: Marks, cw: bool) {
    && (forall o, c :: Alive(h, m, cw, o) && c in Edges(h, o) ==> Alive(h, m, cw, c))
    && (forall o, c :: Alive(h, m, cw, o) && h[o].LClosure? && c in h[o].upvals ==> c in h && IsUpval(h[c]))
  }

  ghost predicate Live(s: State) {
    && AliveClosed(s.heap, s.marked, s.currentwhite)
    && (forall r :: r in s.Roots() ==> Alive(s.heap, s.marked, s.currentwhite, r))
  }

  // ---------- Marking: the tri-colour invariant ----------

  ghost function Whites(m: Marks): set<Ref> {
    set o | o in m && m[o].White?
  }

  /** A marked object outside `pending` has no white successor. */
  ghost predicate Settled(h: Heap, m: Marks, pending: set<Ref>)
    requires m.Keys == h.Keys
  {
    forall o, c :: o in h && o !in pending && !m[o].White? && c in Edges(h, o) && c in h ==> !m[c].White?
  }

  ghost predicate HeapClosed(h: Heap) {
    forall o, c :: o in h && c in Edges(h, o) ==> c in h
  }

  /** Where gray objects are found; `busy` are the closed upvalues being marked right now. */
  ghost predicate GrayOk(h: Heap, m: Marks, gray: seq<Ref>, grayagain: seq<Ref>, busy: set<Ref>)
    requires m.Keys == h.Keys
  {
    && (forall o :: o in h && m[o].Gray? ==>
         || h[o].Str? || h[o].OpenUp?
         || (Traversable(h[o]) && (o in gray || o in grayagain))
         || (h[o].ClosedUp? && o in busy))
    && (forall o :: o in h && m[o].Black? ==> !h[o].Thread? && !h[o].OpenUp?)
    && (forall o :: o in gray || o in grayagain ==> o in h && m[o].Gray? && Traversable(h[o]))
    && NoDup(gray + grayagain)
  }

  ghost predicate MarkInv(h: Heap, m: Marks, cw: bool, gray: seq<Ref>, grayagain: seq<Ref>, X: set<Ref>,
      busy: set<Ref>) {
    && m.Keys == h.Keys
    && HeapClosed(h)
    && (forall o :: o in h ==> m[o] != White(!cw))
    && Settled(h, m, Elems(gray) + X)
    && GrayOk(h, m, gray, grayagain, busy)
  }

  /** Marking only turns white objects, all of them in `S`, into marked ones. */
  ghost predicate Marked(m: Marks, m': Marks, S: set<Ref>) {
    && m'.Keys == m.Keys
    && (forall o :: o in m && !m[o].White? ==> m'[o] == m[o])
    && (forall o :: o in m && m[o].White? && !m'[o].White? ==> o in S)
    && (forall o :: o in m && m'[o].White? ==> m'[o] == m[o])
  }

  /** As `Marked`, for a step that may also turn gray objects black. */
  ghost predicate Advance(m: Marks, m': Marks, S: set<Ref>) {
    && m'.Keys == m.Keys
    && (forall o :: o in m && !m[o].White? ==> !m'[o].White?)
    && (forall o :: o in m && m[o].White? && !m'[o].White? ==> o in S)
    && (forall o :: o in m && m'[o].White? ==> m'[o] == m[o])
  }

  /** All marked objects lie in `S`. */
  ghost predicate Sound(m: Marks, S: set<Ref>) {
    forall o :: o in m && !m[o].White? ==> o in S
  }

  lemma AfterMarked(m0: Marks, m1: Marks, m2: Marks, S: set<Ref>)
    requires (m0 == m1 || Advance(m0, m1, S)) && Marked(m1, m2, S) && Sound(m1, S)
    ensures Advance(m0, m2, S) && Sound(m2, S)
  {
  }

  lemma AfterAdvance(m0: Marks, m1: Marks, m2: Marks, S: set<Ref>)
    requires Advance(m0, m1, S) && Advance(m1, m2, S) && Sound(m1, S)
    ensures Advance(m0, m2, S) && Sound(m2, S)
  {
  }

  lemma AdvanceMarks(m1: Marks, m2: Marks, S: set<Ref>, rs: set<Ref>)
    requires Advance(m1, m2, S)
    requires forall r :: r in rs ==> r in m1 && !m1[r].White?
    ensures forall r :: r in rs ==> r in m2 && !m2[r].White?
  {
  }

  lemma WhitesShrink(m: Marks, o: Ref, c: Colour)
    requires o in m && m[o].White? && !c.White?
    ensures Whites(m[o := c]) < Whites(m)
  {
    assert o in Whites(m);
  }

  /** The colour a white object may be given first: gray, or black for userdata. */
  predicate FirstColour(o: Object, c: Colour) {
    if o.Udata? then c.Black? else c.Gray? && !Traversable(o)
  }

  /** Colouring a white object that is not queued leaves it, and only it, pending. */
  lemma MarkStart(h: Heap, m: Marks, cw: bool, gray: seq<Ref>, grayagain: seq<Ref>, X: set<Ref>, busy: set<Ref>,
                  o: Ref, c: Colour)
    requires MarkInv(h, m, cw, gray, grayagain, X, busy)
    requires o in h && m[o].White? && FirstColour(h[o], c)
    ensures MarkInv(h, m[o := c], cw, gray, grayagain, X + {o}, if h[o].ClosedUp? then busy + {o} else busy)
  {
  }

  lemma MarkQueue(h: Heap, m: Marks, cw: bool, gray: seq<Ref>, grayagain: seq<Ref>, X: set<Ref>, busy: set<Ref>, o: Ref)
    requires MarkInv(h, m, cw, gray, grayagain, X, busy)
    requires o in h && m[o].White? && Traversable(h[o])
    ensures MarkInv(h, m[o := Gray], cw, [o] + gray, grayagain, X, busy)
  {
    assert ([o] + gray) + grayagain == [o] + (gray + grayagain);
  }

  /** Once all successors of a pending object are marked it is pending no longer. */
  lemma MarkFinish(h: Heap, m: Marks, cw: bool, gray: seq<Ref>, grayagain: seq<Ref>, X: set<Ref>, busy: set<Ref>,
      o: Ref)
    requires MarkInv(h, m, cw, gray, grayagain, X + {o}, busy)
    requires forall c :: c in Edges(h, o) ==> c in m && !m[c].White?
    ensures MarkInv(h, m, cw, gray, grayagain, X, busy)
  {
  }

  /** A closed upvalue whose value is marked turns black. */
  lemma MarkBlacken(h: Heap, m: Marks, cw: bool, gray: seq<Ref>, grayagain: seq<Ref>, X: set<Ref>, busy: set<Ref>,
      o: Ref)
    requires MarkInv(h, m, cw, gray, grayagain, X, busy + {o})
    requires o in h && h[o].ClosedUp? && m[o].Gray?
    ensures MarkInv(h, m[o := Black], cw, gray, grayagain, X, busy)
  {
  }

  /** Taking an object off `gray`: a thread moves to `grayagain`, anything else turns black. */
  lemma PopGray(h: Heap, m: Marks, cw: bool, gray: seq<Ref>, grayagain: seq<Ref>, X: set<Ref>)
    requires MarkInv(h, m, cw, gray, grayagain, X, {}) && gray != []
    ensures gray[0] in h && m[gray[0]].Gray? && Traversable(h[gray[0]])
    ensures h[gray[0]].Thread? ==> MarkInv(h, m, cw, gray[1..], [gray[0]] + grayagain, X + {gray[0]}, {})
    ensures !h[gray[0]].Thread? ==> MarkInv(h, m[gray[0] := Black], cw, gray[1..], grayagain, X + {gray[0]}, {})
  {
    var o := gray[0];
    NoDupMove(gray, grayagain);
  }

  lemma GrayIsMarked(h: Heap, m: Marks, cw: bool, gray: seq<Ref>, grayagain: seq<Ref>, X: set<Ref>)
    requires MarkInv(h, m, cw, gray, grayagain, X, {})
    ensures forall o :: o in gray || o in grayagain ==> o in h && m[o].Gray?
  {
  }

  lemma MarkWeaken(h: Heap, m: Marks, cw: bool, gray: seq<Ref>, grayagain: seq<Ref>, X: set<Ref>, Y: set<Ref>)
    requires MarkInv(h, m, cw, gray, grayagain, X, {}) && X <= Y
    ensures MarkInv(h, m, cw, gray, grayagain, Y, {})
  {
  }

  /** A white object is not pending in any interesting way. */
  lemma MarkDropWhite(h: Heap, m: Marks, cw: bool, gray: seq<Ref>, grayagain: seq<Ref>, X: set<Ref>, o: Ref)
    requires MarkInv(h, m, cw, gray, grayagain, X + {o}, {})
    requires o in m && m[o].White?
    ensures MarkInv(h, m, cw, gray, grayagain, X, {})
  {
  }

  lemma OpenNotBlack(h: Heap, m: Marks, cw: bool, gray: seq<Ref>, grayagain: seq<Ref>, X: set<Ref>, o: Ref)
    requires MarkInv(h, m, cw, gray, grayagain, X, {})
    requires o in h && h[o].OpenUp?
    ensures !m[o].Black?
  {
  }

  lemma MainThreadEdges(h: Heap, S: set<Ref>, t: Ref)
    requires Closed(h, S) && t in S && t in h && h[t].Thread?
    ensures forall r :: r in ValueRefs([h[t].gt]) ==> r in S
  {
    assert forall r :: r in ValueRefs([h[t].gt]) ==> r in Edges(h, t);
  }

  /** The atomic step takes over `grayagain` as its last work list. */
  lemma MarkAgain(h: Heap, m: Marks, cw: bool, grayagain: seq<Ref>, X: set<Ref>)
    requires MarkInv(h, m, cw, [], grayagain, X, {})
    requires forall o :: o in X ==> o in grayagain
    ensures MarkInv(h, m, cw, grayagain, [], {}, {})
  {
    assert [] + grayagain == grayagain + [];
  }

  /** In a heap that is all current white, marking may start from empty work lists. */
  lemma MarkBegin(h: Heap, m: Marks, cw: bool)
    requires m.Keys == h.Keys && HeapClosed(h)
    requires forall o :: o in h ==> m[o] == White(cw)
    ensures MarkInv(h, m, cw, [], [], {}, {})
  {
  }

  /** When nothing is left to traverse, flipping the whites makes "not dead" mean "marked". */
  lemma MarkEnd(h: Heap, m: Marks, cw: bool, grayagain: seq<Ref>)
    requires MarkInv(h, m, cw, [], grayagain, {}, {})
    requires AliveClosed(h, m, cw)
    ensures AliveClosed(h, m, !cw)
    ensures forall o :: o in h ==> (Alive(h, m, !cw, o) <==> !m[o].White?)
    ensures forall o :: o in h && m[o].Black? ==> !h[o].OpenUp?
  {
    forall o, c | Alive(h, m, !cw, o) && c in Edges(h, o) ensures Alive(h, m, !cw, c) {
      assert o in h && !m[o].White?;
      assert c in h;
    }
    forall o, c | Alive(h, m, !cw, o) && h[o].LClosure? && c in h[o].upvals ensures c in h && IsUpval(h[c]) {
      assert Alive(h, m, cw, o);
    }
  }

  ghost function OpenUps(h: Heap): set<Ref> {
    set o | o in h && h[o].OpenUp?
  }

  // ---------- The invariant, phase by phase ----------

  ghost predicate Clean(s: State) {
    forall o :: o in s.heap && o in s.marked ==> s.marked[o] == White(s.currentwhite)
  }

  ghost predicate Marking(s: State)
    requires s.marked.Keys == s.heap.Keys
  {
    && MarkInv(s.heap, s.marked, s.currentwhite, s.gray, s.grayagain,
               Elems(s.grayagain) + OpenUps(s.heap), {})
    && s.mainthread in s.heap && !s.marked[s.mainthread].White?
    && s.registry in s.heap && !s.marked[s.registry].White?
  }

  /** Everything the sweep has passed carries the current white; no open upvalue is black. */
  ghost predicate Sweeping(s: State) {
    && SweptStrings(s.marked, s.currentwhite, s.strt, s.sweepstrgc)
    && SweptRoots(s.heap, s.marked, s.currentwhite, s.rootgc, s.sweepgc)
    && (forall o :: o in s.heap && o in s.marked && s.marked[o].Black? ==> !s.heap[o].OpenUp?)
    && (s.phase.SweepString? ==> s.sweepgc == 0 && s.sweepstrgc < |s.strt|)
    && (s.phase.Sweep? ==> s.sweepstrgc == |s.strt|)
  }

  predicate Fresh(m: Marks, cw: bool, o: Ref) {
    o in m && m[o] == White(cw)
  }

  ghost predicate SweptStrings(m: Marks, cw: bool, strt: seq<seq<Ref>>, k: nat) {
    forall i :: 0 <= i < k && i < |strt| ==> forall o :: o in strt[i] ==> Fresh(m, cw, o)
  }

  /** The part of `rootgc` behind the sweep pointer, with the open upvalues of its threads, is white. */
  ghost predicate SweptRoots(h: Heap, m: Marks, cw: bool, rootgc: seq<Ref>, sweepgc: nat) {
    forall i :: 0 <= i < sweepgc && i < |rootgc| ==>
      && Fresh(m, cw, rootgc[i])
      && (rootgc[i] in h && h[rootgc[i]].Thread? ==> forall u :: u in h[rootgc[i]].openupval ==> Fresh(m, cw, u))
  }

  ghost predicate Inv(s: State) {
    && Structure(s)
    && Live(s)
    && (s.freeing == {} || s.phase.Sweep?)
    && match s.phase
       case Pause => Clean(s)
       case Propagate => Marking(s)
       case SweepString => Sweeping(s)
       case Sweep => Sweeping(s)
       case Finalize => Clean(s)
  }

  /** Nothing the program can reach is missing from the heap, or about to be freed. */
  lemma ReachableAlive(s: State)
    requires Live(s)
    ensures forall o :: Reachable(s.heap, s.Roots(), o) ==> Alive(s.heap, s.marked, s.currentwhite, o)
    ensures forall o :: Reachable(s.heap, s.Roots(), o) <==> o in Reach(s.heap, s.Roots())
  {
    var S := AliveSet(s.heap, s.marked, s.currentwhite);
    forall o, c | o in S && c in Edges(s.heap, o) ensures c in S {
      assert Alive(s.heap, s.marked, s.currentwhite, o);
      assert Alive(s.heap, s.marked, s.currentwhite, c);
    }
    ReachInside(s.heap, s.Roots(), S);
  }

  /** The main thread, the running one, the registry and the metatables of the basic types. */
  predicate RootsIn(s: State, S: set<Ref>) {
    && s.mainthread in S && s.running in S && s.registry in S
    && forall i :: 0 <= i < |s.mt| ==> OptIn(s.mt[i], S)
  }

  /** The roots lie in `S`, and whatever a field of an object in `S` holds lies there too. */
  ghost predicate ClosedFields(s: State, S: set<Ref>) {
    RootsIn(s, S) && forall o :: o in S && o in s.heap ==> FieldsIn(s.heap, s.heap[o], S)
  }

  lemma RootsAre(s: State, S: set<Ref>)
    ensures RootsIn(s, S) <==> s.Roots() <= S
  {
    if RootsIn(s, S) {
      forall r | r in s.Roots() ensures r in S {
        if r in RefsOf(s.mt) {
          var i :| 0 <= i < |s.mt| && s.mt[i].Some? && s.mt[i].value == r;
          assert OptIn(s.mt[i], S);
        }
      }
    }
    if s.Roots() <= S {
      forall i | 0 <= i < |s.mt| ensures OptIn(s.mt[i], S) {
        assert s.mt[i].Some? ==> s.mt[i].value in RefsOf(s.mt);
      }
    }
  }

  /** A set of objects is closed under references if and only if it holds all that their fields hold. */
  lemma ClosedIsFields(s: State, S: set<Ref>)
    ensures ClosedFields(s, S) <==> s.Roots() <= S && Closed(s.heap, S)
  {
    RootsAre(s, S);
    hide RootsIn, FieldsIn;
    forall o | o in s.heap
      ensures FieldsIn(s.heap, s.heap[o], S) <==> forall c :: c in Edges(s.heap, o) ==> c in S
    {
      FieldsAreEdges(s.heap, o, S);
    }
    assert forall o :: o !in s.heap ==> Edges(s.heap, o) == [];
    hide Edges;
  }

  /** No field of a live object, and no root, refers to an object that is missing or dead. */
  lemma LiveFields(s: State)
    requires Live(s)
    ensures ClosedFields(s, AliveSet(s.heap, s.marked, s.currentwhite))
  {
    var S := AliveSet(s.heap, s.marked, s.currentwhite);
    LiveFacts(s);
    hide ClosedFields, Edges;
    forall o, c | o in S && c in Edges(s.heap, o) ensures c in S {
      assert Alive(s.heap, s.marked, s.currentwhite, o);
      assert Alive(s.heap, s.marked, s.currentwhite, c);
    }
    ClosedIsFields(s, S);
  }

  /** What is reachable is the least set that holds the roots and all that the fields of its objects hold. */
  lemma ReachLeast(s: State)
    requires Live(s)
    ensures ClosedFields(s, Reach(s.heap, s.Roots()))
    ensures forall S: set<Ref> :: ClosedFields(s, S) ==> Reach(s.heap, s.Roots()) <= S
  {
    ghost var A := AliveSet(s.heap, s.marked, s.currentwhite);
    LiveFields(s);
    ClosedIsFields(s, A);
    hide ClosedFields, Edges;
    ReachClosed(s.heap, s.Roots(), A);
    ClosedIsFields(s, Reach(s.heap, s.Roots()));
    forall S: set<Ref> | ClosedFields(s, S) ensures Reach(s.heap, s.Roots()) <= S {
      ClosedIsFields(s, S);
      ReachInside(s.heap, s.Roots(), S);
    }
  }

  /** What the marking methods need to know of a state in the propagate phase. */
  lemma MarkingFacts(s: State)
    requires Inv(s) && s.phase.Propagate?
    ensures s.marked.Keys == s.heap.Keys
    ensures MarkInv(s.heap, s.marked, s.currentwhite, s.gray, s.grayagain, Elems(s.grayagain) + Elems(s.uvhead), {})
    ensures forall u :: u in s.uvhead ==> u in s.heap && s.heap[u].OpenUp?
    ensures s.mainthread in s.heap && !s.marked[s.mainthread].White?
    ensures s.registry in s.heap && !s.marked[s.registry].White?
    ensures s.running in s.heap
    ensures AliveClosed(s.heap, s.marked, s.currentwhite)
  {
    hide MarkInv, RootListOk, StringsOk, Live, AliveClosed;
    assert OpenUps(s.heap) == Elems(s.uvhead);
    assert Live(s);
    LiveFacts(s);
  }

  lemma AtomicFacts(s: State)
    requires Inv(s) && s.phase.Propagate?
    ensures Structure(s) && s.strt != []
    ensures forall o :: o in s.heap ==> s.marked[o] != White(!s.currentwhite)
    ensures s.Roots() <= s.heap.Keys
  {
    hide Settled, GrayOk, HeapClosed, RootListOk, UpvalsOk, AliveClosed;
    assert Live(s);
    LiveFacts(s);
  }

  lemma LiveFacts(s: State)
    requires Live(s)
    ensures AliveClosed(s.heap, s.marked, s.currentwhite)
    ensures s.Roots() <= AliveSet(s.heap, s.marked, s.currentwhite)
  {
    hide AliveClosed;
  }

  lemma MarkingInv(s: State, s': State)
    requires Inv(s) && s.phase.Propagate?
    requires s' == s.(marked := s'.marked, gray := s'.gray, grayagain := s'.grayagain)
    requires MarkInv(s.heap, s'.marked, s.currentwhite, s'.gray, s'.grayagain, Elems(s'.grayagain) + Elems(s.uvhead),
        {})
    requires Advance(s.marked, s'.marked, s.heap.Keys)
    ensures Inv(s')
  {
    hide MarkInv, RootListOk, StringsOk, UpvalsOk, AliveClosed, Live;
    assert OpenUps(s.heap) == Elems(s.uvhead) by { UvheadIsOpenUps(s); }
    MarkingLive(s, s');
  }

  lemma UvheadIsOpenUps(s: State)
    requires Structure(s)
    ensures OpenUps(s.heap) == Elems(s.uvhead)
  {
    hide RootListOk, StringsOk;
  }

  lemma MarkingLive(s: State, s': State)
    requires Live(s) && s.marked.Keys == s.heap.Keys
    requires s' == s.(marked := s'.marked, gray := s'.gray, grayagain := s'.grayagain)
    requires MarkInv(s.heap, s'.marked, s.currentwhite, s'.gray, s'.grayagain, Elems(s'.grayagain) + Elems(s.uvhead),
        {})
    requires MarkInv(s.heap, s.marked, s.currentwhite, s.gray, s.grayagain, Elems(s.grayagain) + Elems(s.uvhead), {})
    ensures Live(s')
  {
    hide Settled, GrayOk, HeapClosed, AliveClosed, Edges;
    AliveSame(s.heap, s.marked, s'.marked, s.currentwhite, s.currentwhite);
  }

  /** Recolouring that leaves the same objects dead leaves the live ones closed. */
  lemma AliveSame(h: Heap, m: Marks, m': Marks, cw: bool, cw': bool)
    requires AliveClosed(h, m, cw)
    requires forall o :: o in h ==> (Alive(h, m', cw', o) <==> Alive(h, m, cw, o))
    ensures AliveClosed(h, m', cw')
  {
    hide Edges;
    forall o, c | Alive(h, m', cw', o) && c in Edges(h, o) ensures Alive(h, m', cw', c) {
      assert Alive(h, m, cw, o);
      assert Alive(h, m, cw, c);
    }
    forall o, c | Alive(h, m', cw', o) && h[o].LClosure? && c in h[o].upvals ensures c in h && IsUpval(h[c]) {
      assert Alive(h, m, cw, o);
    }
  }

  /** `S` holds the roots and everything marked so far, and is closed under references. */
  ghost predicate Covers(s: State, S: set<Ref>) {
    Closed(s.heap, S) && S <= s.heap.Keys && s.Roots() <= S && Sound(s.marked, S)
  }

  /** The effect of the marking half of the atomic step. */
  ghost predicate AllMarked(s: State, s': State, S: set<Ref>) {
    && s' == s.(marked := s'.marked, gray := s'.gray, grayagain := s'.grayagain)
    && MarkInv(s.heap, s'.marked, s.currentwhite, [], s'.grayagain, {}, {})
    && Advance(s.marked, s'.marked, S) && Sound(s'.marked, S)
    && (forall r :: r in {s.running} + RefsOf(s.mt) ==> r in s'.marked && !s'.marked[r].White?)
  }

  function StartSweep(s: State): State {
    s.(currentwhite := !s.currentwhite, phase := SweepString, sweepgc := 0, sweepstrgc := 0)
  }

  /** After the last traversal, with all roots marked, flipping the white starts a sound sweep. */
  lemma AtomicInv(s: State, s': State, S: set<Ref>)
    requires Inv(s) && s.phase.Propagate? && Covers(s, S)
    requires AllMarked(s, s', S)
    ensures Inv(StartSweep(s'))
    ensures forall o :: Alive(s.heap, s'.marked, !s.currentwhite, o) ==> o in S
  {
    hide MarkInv, RootListOk, StringsOk, UpvalsOk, AliveClosed, Edges, Sweeping, Clean, Closed;
    MarkingFacts(s);
    AtomicFacts(s);
    assert AliveClosed(s.heap, s'.marked, s.currentwhite) by {
      AliveSame(s.heap, s.marked, s'.marked, s.currentwhite, s.currentwhite);
    }
    MarkEnd(s.heap, s'.marked, s.currentwhite, s'.grayagain);
    assert Sweeping(StartSweep(s')) by { SweepStart(StartSweep(s')); }
  }

  lemma SweepStart(s: State)
    requires s.phase.SweepString? && s.sweepgc == s.sweepstrgc == 0 && s.strt != []
    requires forall o :: o in s.heap && o in s.marked && s.marked[o].Black? ==> !s.heap[o].OpenUp?
    ensures Sweeping(s)
  {
  }

  /** Marking the roots of a clean heap establishes the tri-colour invariant. */
  lemma MarkRootInv(s: State, s': State)
    requires Structure(s) && Live(s) && Clean(s) && s.freeing == {}
    requires s' == s.(marked := s'.marked, gray := s'.gray, grayagain := [], phase := Propagate)
    requires MarkInv(s.heap, s'.marked, s.currentwhite, s'.gray, [], {}, {})
    requires !s'.marked[s.mainthread].White?
    requires s.registry in s.heap && !s'.marked[s.registry].White?
    ensures Inv(s')
  {
    hide RootListOk, StringsOk, UpvalsOk, AliveClosed, Edges, GrayOk, Settled, HeapClosed;
    AliveSame(s.heap, s.marked, s'.marked, s.currentwhite, s.currentwhite);
    forall r | r in s'.Roots() ensures Alive(s'.heap, s'.marked, s'.currentwhite, r) {
      assert s'.Roots() == s.Roots();
      assert Alive(s.heap, s.marked, s.currentwhite, r);
    }
    MarkWeaken(s.heap, s'.marked, s.currentwhite, s'.gray, [], {}, Elems(s'.grayagain) + OpenUps(s.heap));
  }

  lemma CleanFacts(s: State)
    requires Structure(s) && Live(s) && Clean(s)
    ensures s.marked.Keys == s.heap.Keys && HeapClosed(s.heap)
    ensures s.mainthread in s.heap && s.heap[s.mainthread].Thread? && s.registry in s.heap
  {
    hide RootListOk, StringsOk, UpvalsOk, Edges;
    assert s.registry in s.Roots();
    forall o, c | o in s.heap && c in Edges(s.heap, o) ensures c in s.heap {
      assert Alive(s.heap, s.marked, s.currentwhite, o);
      assert Alive(s.heap, s.marked, s.currentwhite, c);
    }
  }
}
